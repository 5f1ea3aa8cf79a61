/** Update run by any number of points on one FIFO, beside pushers, poppers and loggers: what becomes of every
    record handed over, and how many stored records the loops lose. */
module FifoUpdates {
  import opened FifoHistory
  import opened Ring
  import opened FifoProtocol
  import opened FifoSafety
  import opened FifoTheorems

  function Ones(b: bool): nat {
    if b then 1 else 0
  }

  /** `e` hands record `x` over: by a push that succeeds, or to a loop of AddLog or Update that begins. */
  predicate HandsOver(p: Phase, e: Event, x: Item) {
    || (e.Take? && e.job == Once && e.op == Push(x) && e.out == Pushed)
    || (e.Call? && e.job != Once && p == Free && e.job.item == x)
  }

  /** How often record `x` was handed over. */
  function Entered(h: History, x: Item): nat {
    if h == [] then 0 else
      var g, e := h[..|h| - 1], h[|h| - 1];
      Entered(g, x) + Ones(HandsOver(PhaseOf(g, e.tid), e, x))
  }

  /** Update's pop overwrites the record it was pushing: its own batch, or (`stored`) one it had popped before. */
  predicate Overwrites(e: Event, stored: bool) {
    e.Take? && e.job.Updating? && e.job.stored == stored && e.out.Popped?
  }

  /** How often record `x` was so overwritten. */
  function Lost(h: History, stored: bool, x: Item): nat {
    if h == [] then 0 else
      var e := h[|h| - 1];
      Lost(h[..|h| - 1], stored, x) + Ones(Overwrites(e, stored) && e.job.item == x)
  }

  /** How often `x` was taken out for one of the purposes. */
  function Taken(h: History, purposes: set<Purpose>, x: Item): nat {
    multiset(TakenItems(h, purposes))[x]
  }

  /** How often the atomic queue holds `x`. */
  function Queued(cap: nat, h: History, x: Item): nat
    requires Replay(cap, h).Some?
  {
    multiset(Replay(cap, h).value)[x]
  }

  /** A loop in phase `p` still has to place record `x`. */
  predicate Holds(p: Phase, x: Item) {
    match p
    case Called(job, _) => job != Once && job.item == x
    case Took(job, _, out) => job != Once && out != Pushed && AfterPop(job, out).item == x
    case Retry(job, _) => job != Once && job.item == x
    case _ => false
  }

  /** How many of the first `n` threads hold `x`. */
  function Holders(h: History, n: nat, x: Item): nat {
    if n == 0 then 0 else Holders(h, n - 1, x) + Ones(Holds(PhaseOf(h, n - 1), x))
  }

  lemma {:induction false} HoldersStep(h: History, e: Event, n: nat, x: Item)
    ensures e.tid >= n ==> Holders(h + [e], n, x) == Holders(h, n, x)
    ensures e.tid < n ==> Holders(h + [e], n, x) + Ones(Holds(PhaseOf(h, e.tid), x)) ==
                          Holders(h, n, x) + Ones(Holds(PhaseOf(h + [e], e.tid), x))
  {
    if n > 0 {
      hide PhaseOf, Holds;
      HoldersStep(h, e, n - 1, x);
      ExtendPhase(h, e, n - 1);
    }
  }

  lemma HandedOverStep(g: History, e: Event, x: Item)
    ensures Entered(g + [e], x) == Entered(g, x) + Ones(HandsOver(PhaseOf(g, e.tid), e, x))
    ensures forall stored ::
              Lost(g + [e], stored, x) == Lost(g, stored, x) + Ones(Overwrites(e, stored) && e.job.item == x)
  {
  }

  lemma TakenStep(g: History, e: Event, purposes: set<Purpose>, x: Item)
    ensures Taken(g + [e], purposes, x) == Taken(g, purposes, x) +
                                           Ones(e.Take? && e.out == Popped(x) && PurposeOf(e.job) in purposes)
  {
    assert (g + [e])[..|g|] == g;
  }

  lemma QueuedStep(cap: nat, g: History, e: Event, x: Item)
    requires Replay(cap, g + [e]).Some?
    ensures Replay(cap, g).Some?
    ensures Queued(cap, g + [e], x) + Ones(e.Take? && e.out == Popped(x)) ==
            Queued(cap, g, x) + Ones(e.Take? && e.op == Push(x) && e.out == Pushed)
  {
    ExtendReplay(cap, g, e);
    var q := Replay(cap, g).value;
    if e.Take? && e.op.Pop? && q != [] {
      assert q == [q[0]] + q[1..];
    }
  }

  /** A push was answered as a push, a pop as a pop. */
  lemma {:induction false} TookFits(cap: nat, h: History, t: nat)
    requires Replay(cap, h).Some? && PhaseOf(h, t).Took?
    ensures PhaseOf(h, t).op.Push? <==> PhaseOf(h, t).out in {Pushed, Full}
  {
    var g, e := h[..|h| - 1], h[|h| - 1];
    if e.tid != t {
      TookFits(cap, g, t);
    }
  }

  /** An event moves at most one record, into or out of the hands of its thread. */
  lemma EventMoves(cap: nat, g: History, e: Event, x: Item)
    requires Linearizable(cap, g) && Linearizable(cap, g + [e])
    ensures var p, p', take := PhaseOf(g, e.tid), PhaseOf(g + [e], e.tid), e.Take?;
            Ones(HandsOver(p, e, x)) + Ones(Holds(p, x)) + Ones(take && e.out == Popped(x)) ==
            Ones(Holds(p', x)) + Ones(take && e.op == Push(x) && e.out == Pushed)
            + Ones(take && e.out == Popped(x) && PurposeOf(e.job) in {Reading, Logging})
            + Ones(Overwrites(e, false) && e.job.item == x) + Ones(Overwrites(e, true) && e.job.item == x)
  {
    ExtendReplay(cap, g, e);
    ExtendPhase(g, e, e.tid);
    LoopsStay(g, e.tid);
    if PhaseOf(g, e.tid).Took? {
      TookFits(cap, g, e.tid);
    }
    assert PhaseOf(g + [e], e.tid) != Broken;
    hide PhaseOf, Replay;
  }

  lemma PrefixLinearizable(cap: nat, h: History)
    requires Linearizable(cap, h) && h != []
    ensures Linearizable(cap, h[..|h| - 1]) && h == h[..|h| - 1] + [h[|h| - 1]]
  {
    LinearizablePrefix(cap, h, |h| - 1);
  }

  predicate ThreadsBelow(h: History, n: nat) {
    forall i :: 0 <= i < |h| ==> h[i].tid < n
  }

  lemma {:induction false} NobodyHolds(n: nat, x: Item)
    ensures Holders([], n, x) == 0
  {
    if n > 0 {
      NobodyHolds(n - 1, x);
    }
  }

  /** Each record handed over is, as often as it was, queued, delivered, discarded by AddLog, overwritten by
      Update before or after it was first stored, or still in the hands of a loop. */
  lemma {:induction false} HandedOverIsSomewhere(cap: nat, h: History, n: nat, x: Item)
    requires Linearizable(cap, h) && ThreadsBelow(h, n)
    ensures Entered(h, x) ==
            Queued(cap, h, x) + Taken(h, {Reading}, x) + Taken(h, {Logging}, x)
            + Lost(h, false, x) + Lost(h, true, x) + Holders(h, n, x)
  {
    if h == [] {
      NobodyHolds(n, x);
    } else {
      PrefixLinearizable(cap, h);
      var g, e := h[..|h| - 1], h[|h| - 1];
      HandedOverIsSomewhere(cap, g, n, x);
      HandedOverStep(g, e, x);
      TakenStep(g, e, {Reading}, x);
      TakenStep(g, e, {Logging}, x);
      QueuedStep(cap, g, e, x);
      HoldersStep(g, e, n, x);
      EventMoves(cap, g, e, x);
      hide Entered, Queued, Taken, Lost, Holders, HandsOver, Holds, Overwrites, PhaseOf, Linearizable;
    }
  }

  lemma StepLogsOwn(s: System, mv: Move)
    requires Inv(s) && mv.tid < |s.threads|
    ensures Shaped(s)
    ensures var h := Step(s, mv).history; h == s.history || exists e: Event :: e.tid == mv.tid && h == s.history + [e]
  {
    hide Act, ThreadInv, Locks;
    var p := PhaseOf(s.history, mv.tid);
    assert Locks(s.shared, mv.tid, s.threads[mv.tid]) && ThreadInv(s.shared, s.w, s.threads[mv.tid], p);
    ActPromises(s.shared, s.w, mv.tid, s.threads[mv.tid], mv.command, p);
    var a := Act(s.shared, s.w, mv.tid, s.threads[mv.tid], mv.command);
    assert a.events == [] || a.events == [a.events[0]];
  }

  lemma {:induction false} OnlyThreadsAct(s: System, moves: seq<Move>)
    requires Initial(s)
    ensures Shaped(s) && ThreadsBelow(Run(s, moves).history, |s.threads|)
  {
    if moves != [] {
      var mv := moves[|moves| - 1];
      OnlyThreadsAct(s, moves[..|moves| - 1]);
      Reachable(s, moves[..|moves| - 1]);
      if mv.tid < |s.threads| {
        StepLogsOwn(Run(s, moves[..|moves| - 1]), mv);
      }
    }
  }

  lemma {:induction false} IdleHoldNothing(s: System, n: nat, x: Item)
    requires ThreadsInv(s) && n <= |s.threads| && forall t :: 0 <= t < |s.threads| ==> s.threads[t] == Idle
    ensures Holders(s.history, n, x) == 0
  {
    if n > 0 {
      IdleHoldNothing(s, n - 1, x);
      assert ThreadInv(s.shared, s.w, s.threads[n - 1], PhaseOf(s.history, n - 1));
    }
  }

  /** In state `r` record `x` is, as often as it was handed over: in the memory between the indices, delivered,
      discarded by AddLog, overwritten by Update (its own batch, or a record that was stored before), or in the
      hands of a loop; of the last there are none when every thread is idle. */
  ghost predicate Somewhere(r: System, x: Item) {
    && ShapedMemory(r.shared, r.w) && r.shared.rd != r.shared.wr
    && Entered(r.history, x) ==
       multiset(QueueIn(r.shared.mem, r.shared.rd, r.shared.wr))[x]
       + Taken(r.history, {Reading}, x) + Taken(r.history, {Logging}, x)
       + Lost(r.history, false, x) + Lost(r.history, true, x) + Holders(r.history, |r.threads|, x)
    && ((forall t :: 0 <= t < |r.threads| ==> r.threads[t] == Idle) ==> Holders(r.history, |r.threads|, x) == 0)
  }

  lemma SomewhereIn(r: System, x: Item)
    requires Inv(r) && Linearizable(r.shared.n - 2, r.history) && ThreadsBelow(r.history, |r.threads|)
    ensures Somewhere(r, x)
  {
    hide ThreadInv, Locks, Replay, Linearizable, ThreadsBelow, Entered, Taken, Lost, Holders;
    HandedOverIsSomewhere(r.shared.n - 2, r.history, |r.threads|, x);
    if forall t :: 0 <= t < |r.threads| ==> r.threads[t] == Idle {
      IdleHoldNothing(r, |r.threads|, x);
    }
  }

  /** Over any run of pushers, poppers, loggers and updating points, every record handed over is accounted for. */
  lemma {:induction false} EveryRecordHandedOverIsSomewhere(s: System, moves: seq<Move>, x: Item)
    requires Initial(s)
    ensures Shaped(s) && Somewhere(Run(s, moves), x)
  {
    Reachable(s, moves);
    AlwaysLinearizable(s, moves);
    OnlyThreadsAct(s, moves);
    hide Inv, Linearizable, ThreadsBelow, Somewhere;
    SomewhereIn(Run(s, moves), x);
  }

  // ---------- Stored records that Update loses ----------

  /** How many stored records thread `t` has overwritten. */
  function StoredLosses(h: History, t: nat): nat {
    if h == [] then 0 else
      var e := h[|h| - 1];
      StoredLosses(h[..|h| - 1], t) + Ones(e.tid == t && Overwrites(e, true))
  }

  /** The thread's loop pushes a record that was stored before. */
  predicate HoldsStored(p: Phase) {
    match p
    case Called(job, _) => job.Updating? && job.stored
    case Took(job, _, out) => out != Pushed && AfterPop(job, out).Updating? && AfterPop(job, out).stored
    case Retry(job, _) => job.Updating? && job.stored
    case _ => false
  }

  /** A loop that holds a stored record loses it only if another thread has published since it popped it. */
  lemma {:induction false} StoredLossesBounded(cap: nat, h: History, t: nat)
    requires cap >= 1 && Linearizable(cap, h)
    ensures StoredLosses(h, t) <= Publishes(h, 0, t, false)
    ensures HoldsStored(PhaseOf(h, t)) && (AfterFull(PhaseOf(h, t)) || |Replay(cap, h).value| == cap) ==>
              StoredLosses(h, t) < Publishes(h, 0, t, false)
  {
    if h != [] {
      PrefixLinearizable(cap, h);
      var g, e := h[..|h| - 1], h[|h| - 1];
      StoredLossesBounded(cap, g, t);
      LoopsStay(g, t);
      if PhaseOf(g, t).Took? {
        TookFits(cap, g, t);
      }
      ExtendReplay(cap, g, e);
      ExtendPhase(g, e, t);
      assert PhaseOf(h, t) != Broken;
    }
  }

  /** Over any run, the stored records a thread's Updates lose are no more than the records the other threads
      publish: alone, Update loses no stored record. */
  lemma {:induction false} UpdateLosesStored(s: System, moves: seq<Move>, t: nat)
    requires Initial(s) && s.shared.n >= 3
    ensures Shaped(s)
    ensures var h := Run(s, moves).history; StoredLosses(h, t) <= Publishes(h, 0, t, false)
  {
    AlwaysLinearizable(s, moves);
    StoredLossesBounded(s.shared.n - 2, Run(s, moves).history, t);
  }
}
