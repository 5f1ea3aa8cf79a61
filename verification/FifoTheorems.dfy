/** What every schedule of pushers, poppers and loggers guarantees. */
module FifoTheorems {
  import opened Common
  import opened Ring
  import opened FifoHistory
  import opened FifoProtocol
  import opened FifoSafety

  // ---------- Linearizability ----------

  /** Every schedule of any number of threads leaves a linearizable history of a queue of n - 2 records. */
  lemma {:induction false} AlwaysLinearizable(s: System, moves: seq<Move>)
    requires Initial(s)
    ensures Shaped(s) && Linearizable(s.shared.n - 2, Run(s, moves).history)
  {
    Reachable(s, moves);
    var r := Run(s, moves);
    forall t: nat ensures PhaseOf(r.history, t) != Broken {
      if t < |r.threads| {
        assert ThreadInv(r.shared, r.w, r.threads[t], PhaseOf(r.history, t));
      }
    }
  }

  /** Each operation is answered by the queue as it stood at its Take: a failed push saw it full,
      a failed pop saw it empty, a pop got its oldest record. */
  lemma {:induction false} AnsweredAtTake(cap: nat, h: History, i: nat)
    requires Linearizable(cap, h) && i < |h| && h[i].Take?
    ensures Replay(cap, h[..i]).Some?
    ensures var q := Replay(cap, h[..i]).value;
            match h[i].out
            case Pushed => h[i].op.Push? && |q| < cap && Replay(cap, h[..i + 1]) == Some(q + [h[i].op.item])
            case Full => h[i].op.Push? && |q| == cap && Replay(cap, h[..i + 1]) == Some(q)
            case Popped(x) => h[i].op.Pop? && q != [] && x == q[0] && Replay(cap, h[..i + 1]) == Some(q[1..])
            case Empty => h[i].op.Pop? && q == [] && Replay(cap, h[..i + 1]) == Some(q)
  {
    LinearizablePrefix(cap, h, i + 1);
    assert h[..i + 1] == h[..i] + [h[i]];
    ExtendReplay(cap, h[..i], h[i]);
  }

  // ---------- No torn or stale reads ----------

  /** The chunk being filled is neither the chunk being copied out nor any queued chunk, and a partial
      copy is a prefix of the record that was oldest when rd moved. */
  lemma {:induction false} ChunksStayApart(s: System, moves: seq<Move>, t: nat, u: nat)
    requires Initial(s) && t < |s.threads| && u < |s.threads|
    ensures Shaped(s)
    ensures var r := Run(s, moves);
            && r.shared.rd != r.shared.wr
            && (r.threads[t].Busy? && r.threads[t].stage.PushCopy? ==>
                  && r.threads[t].stage.dest != r.shared.rd
                  && (forall i :: 0 <= i < Length(r.shared.n, r.shared.rd, r.shared.wr) ==>
                       r.threads[t].stage.dest != QueuedSlot(r.shared.n, r.shared.rd, i)))
            && (r.threads[u].Busy? && r.threads[u].stage.PopCopy? ==>
                  && r.threads[u].stage.src == r.shared.rd
                  && PhaseOf(r.history, u).Took? && PhaseOf(r.history, u).out.Popped?
                  && r.threads[u].stage.buf <= PhaseOf(r.history, u).out.item)
  {
    Reachable(s, moves);
    var r := Run(s, moves);
    assert ThreadInv(r.shared, r.w, r.threads[t], PhaseOf(r.history, t));
    assert ThreadInv(r.shared, r.w, r.threads[u], PhaseOf(r.history, u));
  }

  // ---------- First in, first out ----------

  /** The published records, in the order wr advanced. */
  function PushedItems(h: History): seq<Item> {
    if h == [] then [] else
      var e := h[|h| - 1];
      var before := PushedItems(h[..|h| - 1]);
      if e.Take? && e.out == Pushed && e.op.Push? then before + [e.op.item] else before
  }

  /** Why a record is taken out: for a caller that reads it, by AddLog to make room, or by Update, which takes
      it for its batch. */
  datatype Purpose = Reading | Logging | Handing

  function PurposeOf(job: Job): (p: Purpose)
    ensures p == Reading <==> job == Once
    ensures p == Logging <==> job.Adding?
  {
    match job
    case Once => Reading
    case Adding(_) => Logging
    case Updating(_, _) => Handing
  }

  const ALL := {Reading, Logging, Handing}

  /** The records taken out for one of the purposes, in the order rd advanced. */
  function TakenItems(h: History, purposes: set<Purpose>): seq<Item> {
    if h == [] then [] else
      var e := h[|h| - 1];
      var before := TakenItems(h[..|h| - 1], purposes);
      if e.Take? && e.out.Popped? && PurposeOf(e.job) in purposes then before + [e.out.item] else before
  }

  /** The records handed back to callers, in the order the pops returned. */
  function ReturnedItems(h: History): seq<Item> {
    if h == [] then [] else
      var e := h[|h| - 1];
      var before := ReturnedItems(h[..|h| - 1]);
      if e.Return? && e.out.Popped? then before + [e.out.item] else before
  }

  /** Published = taken followed by still queued: order kept, nothing lost, nothing repeated. */
  lemma {:induction false} PublishedAreTakenOrQueued(cap: nat, h: History)
    requires Replay(cap, h).Some?
    ensures PushedItems(h) == TakenItems(h, ALL) + Replay(cap, h).value
  {
    if h != [] {
      var g, e := h[..|h| - 1], h[|h| - 1];
      PublishedAreTakenOrQueued(cap, g);
      var q, taken := Replay(cap, g).value, TakenItems(g, ALL);
      if e.Take? && e.out.Popped? {
        assert taken + q == (taken + [q[0]]) + q[1..];
      }
    }
  }

  /** `xs` is a shuffle of `ys` and `zs` that keeps the order of each. */
  ghost predicate Shuffle<T>(xs: seq<T>, ys: seq<T>, zs: seq<T>)
    decreases |xs|
  {
    if xs == [] then ys == [] && zs == []
    else
      var k := |xs| - 1;
      || (ys != [] && ys[|ys| - 1] == xs[k] && Shuffle(xs[..k], ys[..|ys| - 1], zs))
      || (zs != [] && zs[|zs| - 1] == xs[k] && Shuffle(xs[..k], ys, zs[..|zs| - 1]))
  }

  lemma ShuffleExtend<T>(xs: seq<T>, ys: seq<T>, zs: seq<T>, x: T)
    requires Shuffle(xs, ys, zs)
    ensures Shuffle(xs + [x], ys + [x], zs) && Shuffle(xs + [x], ys, zs + [x])
  {
  }

  /** What is taken out for two sets of purposes is a shuffle of what is taken out for each. */
  lemma {:induction false} TakenSplits(h: History, ps: set<Purpose>, qs: set<Purpose>)
    requires ps !! qs
    ensures Shuffle(TakenItems(h, ps + qs), TakenItems(h, ps), TakenItems(h, qs))
  {
    if h != [] {
      var g, e := h[..|h| - 1], h[|h| - 1];
      TakenSplits(g, ps, qs);
      if e.Take? && e.out.Popped? {
        ShuffleExtend(TakenItems(g, ps + qs), TakenItems(g, ps), TakenItems(g, qs), e.out.item);
      }
    }
  }

  /** Over any run: published = (delivered shuffled with those taken by loops) ++ queued, those taken by loops
      were discarded by AddLog or taken up again by Update, and the queue holds between 0 and n - 2 records. */
  lemma {:induction false} EveryRecordAccountedFor(s: System, moves: seq<Move>)
    requires Initial(s)
    ensures Shaped(s)
    ensures var r := Run(s, moves);
            var taken, looped := TakenItems(r.history, ALL), TakenItems(r.history, {Logging, Handing});
            && r.shared.rd != r.shared.wr
            && var queued := QueueIn(r.shared.mem, r.shared.rd, r.shared.wr);
               && PushedItems(r.history) == taken + queued
               && Shuffle(taken, TakenItems(r.history, {Reading}), looped)
               && Shuffle(looped, TakenItems(r.history, {Logging}), TakenItems(r.history, {Handing}))
               && |queued| <= r.shared.n - 2
  {
    Reachable(s, moves);
    var h := Run(s, moves).history;
    PublishedAreTakenOrQueued(s.shared.n - 2, h);
    TakenSplits(h, {Reading}, {Logging, Handing});
    TakenSplits(h, {Logging}, {Handing});
    assert {Reading} + {Logging, Handing} == ALL && {Logging} + {Handing} == {Logging, Handing};
  }

  /** The record a thread in phase `p` has claimed and not yet returned. */
  function Claimed(p: Phase): seq<Item> {
    match p
    case Took(_, _, Popped(x)) => [x]
    case _ => []
  }

  /** The record claimed by the holder of out_lock_ and not yet returned. */
  function InFlight(s: System): seq<Item> {
    match s.shared.outLock
    case None => []
    case Some(t) => Claimed(PhaseOf(s.history, t))
  }

  /** How one thread's step moves a record: into its hands when rd advances, out of them when it returns. */
  lemma ClaimStep(m: Shared, w: nat, t: nat, th: Thread, c: Command, p: Phase)
    requires ShapedMemory(m, w) && ShapedThread(m.n, w, th) && m.rd != m.wr
    requires Locks(m, t, th) && ThreadInv(m, w, th, p)
    ensures !HoldsOut(th) ==> Claimed(p) == []
    ensures var a := Act(m, w, t, th, c);
            && (a.write == UnlockOut ==> a.events != [] && a.events[0].Return?)
            && (a.events != [] && a.events[0].Return? ==> Claimed(NextPhase(p, a.events[0])) == [])
            && (a.events != [] && a.events[0].Return? && a.events[0].out.Popped? ==>
                  Claimed(p) == [a.events[0].out.item])
            && (a.events != [] && a.events[0].Return? && !a.events[0].out.Popped? ==> Claimed(p) == [])
            && (a.events != [] && !a.events[0].Return? ==> Claimed(p) == [])
            && (a.events != [] && a.events[0].Take? && a.events[0].out.Popped? ==>
                  HoldsOut(th) && Claimed(NextPhase(p, a.events[0])) == [a.events[0].out.item])
            && (a.events != [] && !a.events[0].Return? && (a.events[0].Take? ==> !a.events[0].out.Popped?) ==>
                  Claimed(NextPhase(p, a.events[0])) == [])
  {
  }

  lemma ExtendItems(h: History, e: Event)
    ensures TakenItems(h + [e], ALL) ==
            if e.Take? && e.out.Popped? then TakenItems(h, ALL) + [e.out.item] else TakenItems(h, ALL)
    ensures ReturnedItems(h + [e]) ==
            if e.Return? && e.out.Popped? then ReturnedItems(h) + [e.out.item] else ReturnedItems(h)
  {
  }

  lemma InFlightStep(s: System, t: nat, c: Command)
    requires Inv(s) && t < |s.threads|
    requires TakenItems(s.history, ALL) == ReturnedItems(s.history) + InFlight(s)
    ensures var r := Step(s, Move(t, c));
            TakenItems(r.history, ALL) == ReturnedItems(r.history) + InFlight(r)
  {
    hide Act, ThreadInv, PhaseOf, NextPhase;
    var th, p, r := s.threads[t], PhaseOf(s.history, t), Step(s, Move(t, c));
    assert Locks(s.shared, t, th) && ThreadInv(s.shared, s.w, th, p);
    ActPromises(s.shared, s.w, t, th, c, p);
    ClaimStep(s.shared, s.w, t, th, c, p);
    var a := Act(s.shared, s.w, t, th, c);
    if a.events == [] {
      assert r.history == s.history;
    } else {
      var e := a.events[0];
      assert a.events == [e];
      ExtendItems(s.history, e);
      if r.shared.outLock.Some? {
        ExtendPhase(s.history, e, r.shared.outLock.value);
      }
      if HoldsOut(th) {
        assert InFlight(s) == Claimed(p);
        assert a.write != UnlockOut ==> InFlight(r) == Claimed(NextPhase(p, e));
      } else {
        assert InFlight(r) == InFlight(s);
      }
    }
  }

  lemma {:induction false} TakenAreReturnedOrInFlight(s: System, moves: seq<Move>)
    requires Initial(s)
    ensures Shaped(s)
    ensures var r := Run(s, moves);
            TakenItems(r.history, ALL) == ReturnedItems(r.history) + InFlight(r)
  {
    Reachable(s, moves);
    if moves != [] {
      var before, mv := Run(s, moves[..|moves| - 1]), moves[|moves| - 1];
      TakenAreReturnedOrInFlight(s, moves[..|moves| - 1]);
      Reachable(s, moves[..|moves| - 1]);
      if mv.tid < |s.threads| {
        InFlightStep(before, mv.tid, mv.command);
      }
    }
  }

  /** What readers got back, in the order they got it, is a prefix of what was published. */
  lemma {:induction false} ReturnedIsPrefixOfPublished(s: System, moves: seq<Move>)
    requires Initial(s)
    ensures Shaped(s) && ReturnedItems(Run(s, moves).history) <= PushedItems(Run(s, moves).history)
  {
    EveryRecordAccountedFor(s, moves);
    TakenAreReturnedOrInFlight(s, moves);
  }

  // ---------- The retry loops are lock-free ----------

  function Retries(h: History, from: nat, t: nat): nat {
    if |h| <= from then 0 else
      var e := h[|h| - 1];
      Retries(h[..|h| - 1], from, t) + if e.tid == t && e.Take? && e.job != Once && e.out == Full then 1 else 0
  }

  /** The successful pushes since position `from`: those of thread `t` or those of the others. */
  function Publishes(h: History, from: nat, t: nat, own: bool): nat {
    if |h| <= from then 0 else
      var e := h[|h| - 1];
      Publishes(h[..|h| - 1], from, t, own) + if (e.tid == t) == own && e.Take? && e.out == Pushed then 1 else 0
  }

  /** Between its failed push and the dummy pop that answers it. */
  predicate AfterFull(p: Phase) {
    match p
    case Took(job, op, out) => job != Once && op.Push? && out == Full
    case Retry(_, op) => op == Pop
    case Called(job, op) => job != Once && op == Pop
    case _ => false
  }

  lemma {:induction false} RetriesBoundedAux(cap: nat, h: History, from: nat, t: nat)
    requires cap >= 1 && Linearizable(cap, h)
    ensures Retries(h, from, t) <= Publishes(h, from, t, true) + Publishes(h, from, t, false) + 1
    ensures !AfterFull(PhaseOf(h, t)) && |Replay(cap, h).value| == cap ==>
              Retries(h, from, t) <= Publishes(h, from, t, true) + Publishes(h, from, t, false)
    decreases |h|
  {
    if |h| > from {
      var g, e := h[..|h| - 1], h[|h| - 1];
      LinearizablePrefix(cap, h, |h| - 1);
      RetriesBoundedAux(cap, g, from, t);
      LoopsStay(g, t);
      assert h == g + [e];
      ExtendReplay(cap, g, e);
      ExtendPhase(g, e, t);
      assert PhaseOf(h, t) != Broken && PhaseOf(h, e.tid) != Broken;
      ExtendPhase(g, e, e.tid);
    }
  }

  /** Any thread's failed pushes inside AddLog or Update over any stretch of any run exceed the successful pushes of
      that stretch by at most one: a second failure in a row means that another thread published. */
  lemma {:induction false} RetriesBounded(s: System, moves: seq<Move>, from: nat, t: nat)
    requires Initial(s) && s.shared.n >= 3
    ensures Shaped(s)
    ensures var h := Run(s, moves).history;
            && Retries(h, from, t) <= 1 + Publishes(h, from, t, true) + Publishes(h, from, t, false)
            && (Publishes(h, from, t, true) == 0 && Retries(h, from, t) >= 2 ==> Publishes(h, from, t, false) >= 1)
  {
    AlwaysLinearizable(s, moves);
    RetriesBoundedAux(s.shared.n - 2, Run(s, moves).history, from, t);
  }

  lemma {:induction false} NoPushWithoutRoom(h: History)
    requires Replay(0, h).Some?
    ensures PushedItems(h) == []
  {
    if h != [] {
      NoPushWithoutRoom(h[..|h| - 1]);
    }
  }

  /** With two chunks the queue has no room at all and no push ever succeeds. */
  lemma {:induction false} TwoChunksHoldNothing(s: System, moves: seq<Move>)
    requires Initial(s) && s.shared.n == 2
    ensures Shaped(s) && PushedItems(Run(s, moves).history) == []
  {
    AlwaysLinearizable(s, moves);
    NoPushWithoutRoom(Run(s, moves).history);
  }

  // ---------- Locks are released ----------

  /** The steps a lock holder has left before it lets go. */
  function Remaining(w: nat, th: Thread): nat {
    if th.Idle? then 0 else
      match th.stage
      case Begin => 0
      case Enter => 0
      case PushNext => w + 6
      case PushCheck(_) => w + 5
      case PushDest(_) => w + 4
      case PushCopy(_, _, k) => if k <= w then w - k + 3 else 3
      case PushPublish(_) => 2
      case PopNext => w + 6
      case PopCheck(_) => w + 5
      case PopAdvance(_) => w + 4
      case PopSource => w + 3
      case PopCopy(_, buf) => if |buf| <= w then w - |buf| + 2 else 2
      case Leave(_) => 1
  }

  function MovesOf(moves: seq<Move>, u: nat): nat {
    if moves == [] then 0 else MovesOf(moves[..|moves| - 1], u) + if moves[|moves| - 1].tid == u then 1 else 0
  }

  ghost predicate Inside(s: System, moves: seq<Move>, i: nat, u: nat)
    requires Shaped(s) && i <= |moves| && u < |s.threads|
  {
    var th := Run(s, moves[..i]).threads[u];
    HoldsIn(th) || HoldsOut(th)
  }

  /** A holder's own step brings it nearer to letting go; the steps of others do not touch it. */
  lemma HolderStep(s: System, mv: Move, u: nat)
    requires Shaped(s) && u < |s.threads|
    requires HoldsIn(s.threads[u]) || HoldsOut(s.threads[u])
    requires HoldsIn(Step(s, mv).threads[u]) || HoldsOut(Step(s, mv).threads[u])
    ensures Remaining(s.w, Step(s, mv).threads[u]) <= Remaining(s.w, s.threads[u]) - if mv.tid == u then 1 else 0
  {
  }

  lemma {:induction false} HolderAdvances(s: System, moves: seq<Move>, u: nat)
    requires Shaped(s) && u < |s.threads|
    requires forall i :: 0 <= i <= |moves| ==> Inside(s, moves, i, u)
    ensures Remaining(s.w, Run(s, moves).threads[u]) + MovesOf(moves, u) <= Remaining(s.w, s.threads[u])
  {
    assert moves[..|moves|] == moves;
    if moves != [] {
      var k := |moves| - 1;
      forall i | 0 <= i <= k ensures Inside(s, moves[..k], i, u) {
        assert moves[..k][..i] == moves[..i];
        assert Inside(s, moves, i, u);
      }
      HolderAdvances(s, moves[..k], u);
      assert Inside(s, moves, k, u) && Inside(s, moves, |moves|, u);
      HolderStep(Run(s, moves[..k]), moves[k], u);
    }
  }

  /** From any state, a lock holder that is scheduled w + 7 times has let go of its lock, whatever the others do. */
  lemma {:induction false} LocksAreReleased(s: System, moves: seq<Move>, u: nat)
    requires Shaped(s) && u < |s.threads| && MovesOf(moves, u) >= s.w + 7
    ensures exists i :: 0 <= i <= |moves| && !Inside(s, moves, i, u)
  {
    if forall i :: 0 <= i <= |moves| ==> Inside(s, moves, i, u) {
      HolderAdvances(s, moves, u);
      assert false;
    }
  }

  /** A thread that cannot enter waits for another thread that is inside. */
  lemma {:induction false} SpinnerWaitsForHolder(s: System, moves: seq<Move>, t: nat, c: Command)
    requires Initial(s) && t < |s.threads|
    ensures Shaped(s)
    ensures var r := Run(s, moves);
            r.threads[t].Busy? && r.threads[t].stage == Enter && Step(r, Move(t, c)).threads[t] == r.threads[t] ==>
              exists u :: 0 <= u < |r.threads| && u != t
                && if r.threads[t].op.Push? then HoldsIn(r.threads[u]) else HoldsOut(r.threads[u])
  {
    Reachable(s, moves);
    var r := Run(s, moves);
    assert Locks(r.shared, t, r.threads[t]);
    if r.threads[t].Busy? && r.threads[t].stage == Enter && Step(r, Move(t, c)).threads[t] == r.threads[t] {
      var lock := if r.threads[t].op.Push? then r.shared.inLock else r.shared.outLock;
      assert lock.Some? && lock.value < |r.threads|;
      assert Locks(r.shared, lock.value, r.threads[lock.value]);
    }
  }
}
