/** Schedules that let one thread run through a whole operation. */
module FifoSolo {
  import opened Common
  import opened Ring
  import opened FifoHistory
  import opened FifoProtocol

  // ---------- Schedules, end to end ----------

  /** A system, and the threads that are scheduled. */
  datatype Start = Start(system: System, who: set<nat>)

  predicate MovesOnly(moves: seq<Move>, who: set<nat>) {
    forall i :: 0 <= i < |moves| ==> moves[i].tid in who
  }

  /** Some schedule of only those threads takes the system to `r`. */
  ghost predicate Leads(from: Start, r: System) {
    Shaped(from.system) && exists moves :: MovesOnly(moves, from.who) && Run(from.system, moves) == r
  }

  lemma {:induction false} RunConcat(s: System, a: seq<Move>, b: seq<Move>)
    requires Shaped(s)
    ensures Run(s, a + b) == Run(Run(s, a), b)
  {
    if b == [] {
      assert a + b == a;
    } else {
      assert (a + b)[..|a + b| - 1] == a + b[..|b| - 1];
      RunConcat(s, a, b[..|b| - 1]);
    }
  }

  lemma LeadsOn(from: Start, r: System, q: System)
    requires Leads(from, r) && Leads(Start(r, from.who), q)
    ensures Leads(from, q)
  {
    var a :| MovesOnly(a, from.who) && Run(from.system, a) == r;
    var b :| MovesOnly(b, from.who) && Run(r, b) == q;
    RunConcat(from.system, a, b);
    assert MovesOnly(a + b, from.who);
  }

  lemma StepLeads(s: System, mv: Move, who: set<nat>)
    requires Shaped(s) && mv.tid in who
    ensures Leads(Start(s, who), Step(s, mv))
  {
    assert Run(s, []) == s;
    assert Run(s, [mv]) == Step(s, mv);
    assert MovesOnly([mv], who);
  }

  // ---------- One thread run alone ----------

  /** `s` with the memory `m`, the thread `t` at `th` and the history `h`. */
  function At(s: System, t: nat, m: Shared, th: Thread, h: History): System
    requires t < |s.threads|
  {
    System(m, s.w, s.threads[t := th], h)
  }

  /** Thread `t` and the memory `m` fit the system `s`. */
  predicate Placed(s: System, t: nat, m: Shared) {
    && Shaped(s) && t < |s.threads| && ShapedMemory(m, s.w) && m.n == s.shared.n
  }

  /** One step more of thread `t`, from where a schedule from `from` has led. */
  lemma Acts(from: Start, s: System, t: nat, m: Shared, th: Thread, h: History, m': Shared, th': Thread, h': History)
    requires t in from.who && Placed(s, t, m) && ShapedThread(m.n, s.w, th) && Leads(from, At(s, t, m, th, h))
    requires var a := Act(m, s.w, t, th, Rest);
             && th' == a.thread && ShapedWrite(m.n, s.w, a.write)
             && m' == Perform(m, s.w, t, a.write) && h' == h + a.events
    ensures Placed(s, t, m') && ShapedThread(m'.n, s.w, th') && Leads(from, At(s, t, m', th', h'))
  {
    ActShaped(m, s.w, t, th, Rest);
    hide Act, Leads;
    StepLeads(At(s, t, m, th, h), Move(t, Rest), from.who);
    LeadsOn(from, At(s, t, m, th, h), At(s, t, m', th', h'));
  }

  /** Into the lock: three steps. */
  lemma EntersIn(from: Start, s: System, t: nat, m: Shared, job: Job, x: Item, h: History)
    requires t in from.who && Placed(s, t, m) && |x| == s.w && (job != Once ==> |job.item| == s.w) && m.inLock == None
    requires Leads(from, At(s, t, m, Busy(job, Push(x), Begin), h))
    ensures var l := m.(inLock := Some(t));
            && Placed(s, t, l)
            && Leads(from, At(s, t, l, Busy(job, Push(x), PushCheck(Succ(m.n, m.wr))), h + [Call(t, job, Push(x))]))
  {
    var op, l, h' := Push(x), m.(inLock := Some(t)), h + [Call(t, job, Push(x))];
    hide Leads;
    assert h' + [] == h';
    Acts(from, s, t, m, Busy(job, op, Begin), h, m, Busy(job, op, Enter), h');
    Acts(from, s, t, m, Busy(job, op, Enter), h', l, Busy(job, op, PushNext), h');
    Acts(from, s, t, l, Busy(job, op, PushNext), h', l, Busy(job, op, PushCheck(Succ(m.n, m.wr))), h');
  }

  lemma EntersOut(from: Start, s: System, t: nat, m: Shared, job: Job, h: History)
    requires t in from.who && Placed(s, t, m) && (job != Once ==> |job.item| == s.w) && m.outLock == None
    requires Leads(from, At(s, t, m, Busy(job, Pop, Begin), h))
    ensures var l := m.(outLock := Some(t));
            && Placed(s, t, l)
            && Leads(from, At(s, t, l, Busy(job, Pop, PopCheck(Succ(m.n, m.rd))), h + [Call(t, job, Pop)]))
  {
    var l, h' := m.(outLock := Some(t)), h + [Call(t, job, Pop)];
    hide Leads;
    assert h' + [] == h';
    Acts(from, s, t, m, Busy(job, Pop, Begin), h, m, Busy(job, Pop, Enter), h');
    Acts(from, s, t, m, Busy(job, Pop, Enter), h', l, Busy(job, Pop, PopNext), h');
    Acts(from, s, t, l, Busy(job, Pop, PopNext), h', l, Busy(job, Pop, PopCheck(Succ(m.n, m.rd))), h');
  }

  /** What an operation logs. */
  function Logged(h: History, t: nat, job: Job, op: Op, out: Outcome): History {
    h + [Call(t, job, op)] + [Take(t, job, op, out)] + [Return(t, job, op, out)]
  }

  /** A push on a full queue. */
  lemma PushFails(from: Start, s: System, t: nat, m: Shared, job: Job, x: Item, h: History)
    requires t in from.who && Placed(s, t, m) && |x| == s.w && (job != Once ==> |job.item| == s.w) && m.inLock == None
    requires Succ(m.n, m.wr) == m.rd && Leads(from, At(s, t, m, Busy(job, Push(x), Begin), h))
    ensures Leads(from, At(s, t, m, Finished(job, Push(x), Full), Logged(h, t, job, Push(x), Full)))
  {
    var op, l, h1 := Push(x), m.(inLock := Some(t)), h + [Call(t, job, Push(x))];
    var h2 := h1 + [Take(t, job, op, Full)];
    hide Leads;
    EntersIn(from, s, t, m, job, x, h);
    Acts(from, s, t, l, Busy(job, op, PushCheck(Succ(m.n, m.wr))), h1, l, Busy(job, op, Leave(Full)), h2);
    Acts(from, s, t, l, Busy(job, op, Leave(Full)), h2, m, Finished(job, op, Full), Logged(h, t, job, op, Full));
  }

  lemma {:induction false} CopiesIn(from: Start, s: System, t: nat, m: Shared, job: Job, x: Item, tmp: nat, k: nat,
                                    h: History)
    requires t in from.who && Placed(s, t, m) && |x| == s.w && (job != Once ==> |job.item| == s.w)
    requires tmp < m.n && k <= s.w && m.mem[m.wr][..k] == x[..k]
    requires Leads(from, At(s, t, m, Busy(job, Push(x), PushCopy(tmp, m.wr, k)), h))
    ensures var m' := m.(mem := m.mem[m.wr := x]);
            Placed(s, t, m') && Leads(from, At(s, t, m', Busy(job, Push(x), PushCopy(tmp, m.wr, s.w)), h))
    decreases s.w - k
  {
    hide Leads;
    if k == s.w {
      assert m.mem[m.wr] == m.mem[m.wr][..k] && x == x[..k];
      assert m.(mem := m.mem[m.wr := x]) == m;
    } else {
      var m' := m.(mem := m.mem[m.wr := m.mem[m.wr][k := x[k]]]);
      assert h + [] == h;
      Acts(from, s, t, m, Busy(job, Push(x), PushCopy(tmp, m.wr, k)), h,
           m', Busy(job, Push(x), PushCopy(tmp, m.wr, k + 1)), h);
      assert m'.mem[m.wr][..k + 1] == x[..k + 1];
      CopiesIn(from, s, t, m', job, x, tmp, k + 1, h);
      assert m'.mem[m.wr := x] == m.mem[m.wr := x];
    }
  }

  lemma Completes(from: Start, s: System, t: nat, m: Shared, job: Job, x: Item, tmp: nat, h: History)
    requires t in from.who && Placed(s, t, m) && |x| == s.w && (job != Once ==> |job.item| == s.w) && tmp < m.n
    requires Leads(from, At(s, t, m, Busy(job, Push(x), PushCopy(tmp, m.wr, s.w)), h))
    ensures var m' := m.(wr := tmp, inLock := None);
            && Placed(s, t, m')
            && Leads(from, At(s, t, m', Idle, h + [Take(t, job, Push(x), Pushed)] + [Return(t, job, Push(x), Pushed)]))
  {
    var op, h' := Push(x), h + [Take(t, job, Push(x), Pushed)];
    hide Leads;
    assert h + [] == h;
    Acts(from, s, t, m, Busy(job, op, PushCopy(tmp, m.wr, s.w)), h, m, Busy(job, op, PushPublish(tmp)), h);
    Acts(from, s, t, m, Busy(job, op, PushPublish(tmp)), h, m.(wr := tmp), Busy(job, op, Leave(Pushed)), h');
    Acts(from, s, t, m.(wr := tmp), Busy(job, op, Leave(Pushed)), h',
         m.(wr := tmp, inLock := None), Idle, h' + [Return(t, job, op, Pushed)]);
  }

  /** A push on a queue with room. */
  lemma PushStores(from: Start, s: System, t: nat, m: Shared, job: Job, x: Item, h: History)
    requires t in from.who && Placed(s, t, m) && |x| == s.w && (job != Once ==> |job.item| == s.w) && m.inLock == None
    requires Succ(m.n, m.wr) != m.rd && Leads(from, At(s, t, m, Busy(job, Push(x), Begin), h))
    ensures var m' := m.(mem := m.mem[m.wr := x], wr := Succ(m.n, m.wr));
            Placed(s, t, m') && Leads(from, At(s, t, m', Idle, Logged(h, t, job, Push(x), Pushed)))
  {
    var op, tmp, l, h' := Push(x), Succ(m.n, m.wr), m.(inLock := Some(t)), h + [Call(t, job, Push(x))];
    hide Leads;
    assert h' + [] == h';
    EntersIn(from, s, t, m, job, x, h);
    Acts(from, s, t, l, Busy(job, op, PushCheck(tmp)), h', l, Busy(job, op, PushDest(tmp)), h');
    Acts(from, s, t, l, Busy(job, op, PushDest(tmp)), h', l, Busy(job, op, PushCopy(tmp, m.wr, 0)), h');
    hide Act;
    CopiesIn(from, s, t, l, job, x, tmp, 0, h');
    Completes(from, s, t, l.(mem := m.mem[m.wr := x]), job, x, tmp, h');
  }

  lemma {:induction false} CopiesOut(from: Start, s: System, t: nat, m: Shared, job: Job, k: nat, h: History)
    requires t in from.who && Placed(s, t, m) && (job != Once ==> |job.item| == s.w) && k <= s.w
    requires Leads(from, At(s, t, m, Busy(job, Pop, PopCopy(m.rd, m.mem[m.rd][..k])), h))
    ensures Leads(from, At(s, t, m, Busy(job, Pop, PopCopy(m.rd, m.mem[m.rd])), h))
    decreases s.w - k
  {
    hide Leads;
    var y := m.mem[m.rd];
    if k == s.w {
      assert y[..k] == y;
    } else {
      assert y[..k] + [y[k]] == y[..k + 1] && h + [] == h;
      Acts(from, s, t, m, Busy(job, Pop, PopCopy(m.rd, y[..k])), h, m, Busy(job, Pop, PopCopy(m.rd, y[..k + 1])), h);
      CopiesOut(from, s, t, m, job, k + 1, h);
    }
  }

  lemma HandsOut(from: Start, s: System, t: nat, m: Shared, job: Job, h: History)
    requires t in from.who && Placed(s, t, m) && (job != Once ==> |job.item| == s.w)
    requires Leads(from, At(s, t, m, Busy(job, Pop, PopCopy(m.rd, m.mem[m.rd])), h))
    ensures var m', out := m.(outLock := None), Popped(m.mem[m.rd]);
            Placed(s, t, m') && Leads(from, At(s, t, m', Finished(job, Pop, out), h + [Return(t, job, Pop, out)]))
  {
    var y := m.mem[m.rd];
    hide Leads;
    assert h + [] == h;
    Acts(from, s, t, m, Busy(job, Pop, PopCopy(m.rd, y)), h, m, Busy(job, Pop, Leave(Popped(y))), h);
    Acts(from, s, t, m, Busy(job, Pop, Leave(Popped(y))), h,
         m.(outLock := None), Finished(job, Pop, Popped(y)), h + [Return(t, job, Pop, Popped(y))]);
  }

  /** A pop on a queue that holds something. */
  lemma PopTakes(from: Start, s: System, t: nat, m: Shared, job: Job, h: History)
    requires t in from.who && Placed(s, t, m) && (job != Once ==> |job.item| == s.w) && m.outLock == None
    requires Succ(m.n, m.rd) != m.wr && Leads(from, At(s, t, m, Busy(job, Pop, Begin), h))
    ensures var m', out := m.(rd := Succ(m.n, m.rd)), Popped(m.mem[Succ(m.n, m.rd)]);
            Placed(s, t, m') && Leads(from, At(s, t, m', Finished(job, Pop, out), Logged(h, t, job, Pop, out)))
  {
    var tmp, l, h1 := Succ(m.n, m.rd), m.(outLock := Some(t)), h + [Call(t, job, Pop)];
    var l2, y := l.(rd := tmp), m.mem[tmp];
    var h2 := h1 + [Take(t, job, Pop, Popped(y))];
    hide Leads;
    assert h1 + [] == h1 && h2 + [] == h2 && y[..0] == [];
    EntersOut(from, s, t, m, job, h);
    Acts(from, s, t, l, Busy(job, Pop, PopCheck(tmp)), h1, l, Busy(job, Pop, PopAdvance(tmp)), h1);
    Acts(from, s, t, l, Busy(job, Pop, PopAdvance(tmp)), h1, l2, Busy(job, Pop, PopSource), h2);
    Acts(from, s, t, l2, Busy(job, Pop, PopSource), h2, l2, Busy(job, Pop, PopCopy(tmp, [])), h2);
    hide Act;
    CopiesOut(from, s, t, l2, job, 0, h2);
    HandsOut(from, s, t, l2, job, h2);
  }

  /** A pop on an empty queue. */
  lemma PopFindsNothing(from: Start, s: System, t: nat, m: Shared, job: Job, h: History)
    requires t in from.who && Placed(s, t, m) && (job != Once ==> |job.item| == s.w) && m.outLock == None
    requires Succ(m.n, m.rd) == m.wr && Leads(from, At(s, t, m, Busy(job, Pop, Begin), h))
    ensures Leads(from, At(s, t, m, Finished(job, Pop, Empty), Logged(h, t, job, Pop, Empty)))
  {
    var l, h1 := m.(outLock := Some(t)), h + [Call(t, job, Pop)];
    var h2 := h1 + [Take(t, job, Pop, Empty)];
    hide Leads;
    EntersOut(from, s, t, m, job, h);
    Acts(from, s, t, l, Busy(job, Pop, PopCheck(Succ(m.n, m.rd))), h1, l, Busy(job, Pop, Leave(Empty)), h2);
    Acts(from, s, t, l, Busy(job, Pop, Leave(Empty)), h2, m, Finished(job, Pop, Empty), Logged(h, t, job, Pop, Empty));
  }

  lemma Begins(from: Start, s: System, t: nat, m: Shared, c: Command, h: History)
    requires t in from.who && Placed(s, t, m) && Leads(from, At(s, t, m, Idle, h))
    ensures Leads(from, At(s, t, m, Started(s.w, c), h))
  {
    assert h + [] == h;
    hide Leads;
    StepLeads(At(s, t, m, Idle, h), Move(t, c), from.who);
    LeadsOn(from, At(s, t, m, Idle, h), At(s, t, m, Started(s.w, c), h));
  }

  predicate Unlocked(m: Shared) {
    m.inLock == None && m.outLock == None
  }

  /** An idle thread pushes a record. */
  lemma PushesOnce(from: Start, s: System, t: nat, m: Shared, x: Item, h: History)
    requires t in from.who && Placed(s, t, m) && Unlocked(m) && |x| == s.w && Succ(m.n, m.wr) != m.rd
    requires Leads(from, At(s, t, m, Idle, h))
    ensures var m' := m.(mem := m.mem[m.wr := x], wr := Succ(m.n, m.wr));
            Placed(s, t, m') && Leads(from, At(s, t, m', Idle, Logged(h, t, Once, Push(x), Pushed)))
  {
    hide Leads;
    Begins(from, s, t, m, DoPush(x), h);
    PushStores(from, s, t, m, Once, x, h);
  }

  lemma StandsStill(from: Start)
    requires Shaped(from.system)
    ensures Leads(from, from.system)
  {
    assert MovesOnly([], from.who) && Run(from.system, []) == from.system;
  }

  lemma Schedule(from: Start, r: System) returns (moves: seq<Move>)
    requires Leads(from, r)
    ensures Shaped(from.system) && MovesOnly(moves, from.who) && Run(from.system, moves) == r
  {
    moves :| MovesOnly(moves, from.who) && Run(from.system, moves) == r;
  }
}
