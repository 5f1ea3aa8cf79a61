/** The invariant of the two-lock FIFO, by rely and guarantee: what each step promises about its write,
    and why every other thread's view survives such a write. */
module FifoSafety {
  import opened Common
  import opened Ring
  import opened FifoHistory
  import opened FifoProtocol

  predicate HoldsIn(th: Thread) {
    th.Busy? && match th.stage
      case PushNext | PushCheck(_) | PushDest(_) | PushCopy(_, _, _) | PushPublish(_) => true
      case Leave(_) => th.op.Push?
      case _ => false
  }

  predicate HoldsOut(th: Thread) {
    th.Busy? && match th.stage
      case PopNext | PopCheck(_) | PopAdvance(_) | PopSource | PopCopy(_, _) => true
      case Leave(_) => th.op.Pop?
      case _ => false
  }

  /** The thread knows the next write index and has seen room for it. */
  predicate Room(m: Shared, tmp: nat)
    requires m.wr < m.n
  {
    tmp == Succ(m.n, m.wr) && tmp != m.rd
  }

  /** What a thread may rely on at each stage; `p` is its phase in the history. */
  predicate ThreadInv(m: Shared, w: nat, th: Thread, p: Phase)
    requires ShapedMemory(m, w) && ShapedThread(m.n, w, th)
  {
    match th
    case Idle => p == Free
    case Busy(job, op, stage) =>
      match stage
      case Begin => (p == Free && Starts(job, op)) || p == Retry(job, op)
      case Enter => p == Called(job, op)
      case PushNext => p == Called(job, op)
      case PushCheck(tmp) => p == Called(job, op) && tmp == Succ(m.n, m.wr)
      case PushDest(tmp) => p == Called(job, op) && Room(m, tmp)
      case PushCopy(tmp, dest, k) =>
        p == Called(job, op) && Room(m, tmp) && dest == m.wr && m.mem[dest][..k] == op.item[..k]
      case PushPublish(tmp) => p == Called(job, op) && Room(m, tmp) && m.mem[m.wr] == op.item
      case PopNext => p == Called(job, op)
      case PopCheck(tmp) => p == Called(job, op) && tmp == Succ(m.n, m.rd)
      case PopAdvance(tmp) => p == Called(job, op) && tmp == Succ(m.n, m.rd) && tmp != m.wr
      case PopSource => p == Took(job, op, Popped(m.mem[m.rd]))
      case PopCopy(src, buf) => p == Took(job, op, Popped(m.mem[m.rd])) && src == m.rd && buf == m.mem[src][..|buf|]
      case Leave(out) => p == Took(job, op, out) && (op.Push? <==> out == Pushed || out == Full)
  }

  predicate Locks(m: Shared, t: nat, th: Thread) {
    && (HoldsIn(th) <==> m.inLock == Some(t))
    && (HoldsOut(th) <==> m.outLock == Some(t))
  }

  /** The threads' part: locks name their holders, every thread's view is right. */
  ghost predicate ThreadsInv(s: System) {
    && Shaped(s)
    && (forall t :: 0 <= t < |s.threads| ==>
         && Locks(s.shared, t, s.threads[t])
         && ThreadInv(s.shared, s.w, s.threads[t], PhaseOf(s.history, t)))
    && (forall t: nat :: t >= |s.threads| ==>
         PhaseOf(s.history, t) == Free && s.shared.inLock != Some(t) && s.shared.outLock != Some(t))
  }

  /** The memory's part: the chunks between the indices are the atomic queue of the history. */
  ghost predicate QueueInv(s: System) {
    && ShapedMemory(s.shared, s.w) && s.shared.rd != s.shared.wr
    && Replay(s.shared.n - 2, s.history) == Some(QueueIn(s.shared.mem, s.shared.rd, s.shared.wr))
  }

  ghost predicate Inv(s: System) {
    ThreadsInv(s) && QueueInv(s)
  }

  lemma InitialInv(s: System)
    requires Initial(s)
    ensures Inv(s)
  {
  }

  /** What a step promises about its write: it holds the lock of the index or chunk it touches. */
  predicate Guarantee(m: Shared, w: nat, t: nat, a: Write)
    requires ShapedMemory(m, w) && ShapedWrite(m.n, w, a)
  {
    match a
    case Nothing => true
    case LockIn => m.inLock == None
    case LockOut => m.outLock == None
    case UnlockIn => m.inLock == Some(t)
    case UnlockOut => m.outLock == Some(t)
    case StoreWord(dest, _, _) => m.inLock == Some(t) && dest == m.wr
    case SetWr(i) => m.inLock == Some(t) && Room(m, i)
    case SetRd(i) => m.outLock == Some(t) && i == Succ(m.n, m.rd) && i != m.wr
  }

  /** A step makes a promised write and logs at most one event, its own. */
  lemma ActPromises(m: Shared, w: nat, t: nat, th: Thread, c: Command, p: Phase)
    requires ShapedMemory(m, w) && ShapedThread(m.n, w, th)
    requires Locks(m, t, th) && ThreadInv(m, w, th, p)
    ensures var a := Act(m, w, t, th, c);
            && ShapedThread(m.n, w, a.thread) && ShapedWrite(m.n, w, a.write)
            && Guarantee(m, w, t, a.write)
            && |a.events| <= 1 && (a.events != [] ==> a.events[0].tid == t)
  {
    ActShaped(m, w, t, th, c);
  }

  lemma ActKeepsLocks(m: Shared, w: nat, t: nat, th: Thread, c: Command)
    requires ShapedMemory(m, w) && ShapedThread(m.n, w, th) && Locks(m, t, th)
    ensures var a := Act(m, w, t, th, c);
            ShapedWrite(m.n, w, a.write) && Locks(Perform(m, w, t, a.write), t, a.thread)
  {
  }

  lemma OwnPushStep(m: Shared, w: nat, t: nat, th: Thread, c: Command, p: Phase)
    requires ShapedMemory(m, w) && ShapedThread(m.n, w, th) && m.rd != m.wr
    requires Locks(m, t, th) && ThreadInv(m, w, th, p) && th.Busy? && th.op.Push?
    ensures var a := Act(m, w, t, th, c);
            && ShapedThread(m.n, w, a.thread) && ShapedWrite(m.n, w, a.write)
            && ThreadInv(Perform(m, w, t, a.write), w, a.thread,
                         if a.events == [] then p else NextPhase(p, a.events[0]))
  {
    ActShaped(m, w, t, th, c);
    if th.stage.PushCopy? {
      var dest, k := th.stage.dest, th.stage.k;
      if k < w {
        var m' := Perform(m, w, t, Act(m, w, t, th, c).write);
        assert m'.mem[dest][..k + 1] == th.op.item[..k + 1];
      } else {
        assert m.mem[dest] == m.mem[dest][..k] && th.op.item == th.op.item[..k];
      }
    }
  }

  lemma OwnPopStep(m: Shared, w: nat, t: nat, th: Thread, c: Command, p: Phase)
    requires ShapedMemory(m, w) && ShapedThread(m.n, w, th) && m.rd != m.wr
    requires Locks(m, t, th) && ThreadInv(m, w, th, p) && th.Busy? && th.op.Pop?
    ensures var a := Act(m, w, t, th, c);
            && ShapedThread(m.n, w, a.thread) && ShapedWrite(m.n, w, a.write)
            && ThreadInv(Perform(m, w, t, a.write), w, a.thread,
                         if a.events == [] then p else NextPhase(p, a.events[0]))
  {
    ActShaped(m, w, t, th, c);
    if th.stage.PopCopy? {
      var src, buf := th.stage.src, th.stage.buf;
      if |buf| == w {
        assert m.mem[src][..|buf|] == m.mem[src];
      }
    }
  }

  /** The stepping thread keeps its own view right and its phase follows. */
  lemma {:induction false} OwnStep(m: Shared, w: nat, t: nat, th: Thread, c: Command, p: Phase)
    requires ShapedMemory(m, w) && ShapedThread(m.n, w, th) && m.rd != m.wr
    requires Locks(m, t, th) && ThreadInv(m, w, th, p)
    ensures var a := Act(m, w, t, th, c);
            && ShapedThread(m.n, w, a.thread) && ShapedWrite(m.n, w, a.write)
            && ThreadInv(Perform(m, w, t, a.write), w, a.thread,
                         if a.events == [] then p else NextPhase(p, a.events[0]))
  {
    ActShaped(m, w, t, th, c);
    if th.Busy? {
      if th.op.Push? {
        OwnPushStep(m, w, t, th, c, p);
      } else {
        OwnPopStep(m, w, t, th, c, p);
      }
    }
  }

  /** A promised write leaves every other thread's view right. */
  lemma OtherStep(m: Shared, w: nat, t: nat, a: Write, u: nat, th: Thread, p: Phase)
    requires ShapedMemory(m, w) && ShapedThread(m.n, w, th) && ShapedWrite(m.n, w, a) && m.rd != m.wr
    requires t != u && Guarantee(m, w, t, a)
    requires Locks(m, u, th) && ThreadInv(m, w, th, p)
    ensures Locks(Perform(m, w, t, a), u, th) && ThreadInv(Perform(m, w, t, a), w, th, p)
  {
  }

  function Content(m: Shared, w: nat): (q: seq<Item>)
    requires ShapedMemory(m, w) && m.rd != m.wr
    ensures |q| <= m.n - 2
  {
    QueueIn(m.mem, m.rd, m.wr)
  }

  /** What a promised write does to the queue: only the two index writes change it. */
  lemma WriteEffect(m: Shared, w: nat, t: nat, a: Write)
    requires ShapedMemory(m, w) && ShapedWrite(m.n, w, a) && m.rd != m.wr && Guarantee(m, w, t, a)
    ensures var m' := Perform(m, w, t, a);
            && m'.rd != m'.wr
            && Content(m', w) == match a
               case SetWr(_) => Content(m, w) + [m.mem[m.wr]]
               case SetRd(_) => (if Content(m, w) == [] then [] else Content(m, w)[1..])
               case _ => Content(m, w)
  {
    match a {
      case SetWr(_) => Publish(m.mem, m.rd, m.wr);
      case SetRd(_) => Claim(m.mem, m.rd, m.wr);
      case StoreWord(dest, k, word) => WriteIsPrivate(m.mem, m.rd, m.wr, m.mem[m.wr][k := word]);
      case _ =>
    }
  }

  /** The step does to the queue what the atomic queue does at the operation's Take, and nothing otherwise. */
  predicate RightEffect(m: Shared, w: nat, t: nat, th: Thread, c: Command)
    requires ShapedMemory(m, w) && ShapedThread(m.n, w, th) && m.rd != m.wr
  {
    var a := Act(m, w, t, th, c);
    && ShapedWrite(m.n, w, a.write)
    && var m' := Perform(m, w, t, a.write);
       && m'.rd != m'.wr
       && if a.events != [] && a.events[0].Take?
          then && Answer(m.n - 2, Content(m, w), a.events[0].op) == a.events[0].out
               && Content(m', w) == After(m.n - 2, Content(m, w), a.events[0].op)
          else Content(m', w) == Content(m, w)
  }

  /** Successes take effect at the writes of their own index, failures when the other index leaves no choice. */
  lemma ActTakes(m: Shared, w: nat, t: nat, th: Thread, c: Command, p: Phase)
    requires ShapedMemory(m, w) && ShapedThread(m.n, w, th) && m.rd != m.wr
    requires Locks(m, t, th) && ThreadInv(m, w, th, p)
    ensures var a := Act(m, w, t, th, c);
            if a.events != [] && a.events[0].Take? then
              match a.events[0].out
              case Pushed => a.write.SetWr? && a.events[0].op == Push(m.mem[m.wr]) && Succ(m.n, m.wr) != m.rd
              case Full => a.write == Nothing && a.events[0].op.Push? && Succ(m.n, m.wr) == m.rd
              case Popped(y) => && a.write.SetRd? && a.events[0].op == Pop
                                && y == m.mem[Succ(m.n, m.rd)] && Succ(m.n, m.rd) != m.wr
              case Empty => a.write == Nothing && a.events[0].op == Pop && Succ(m.n, m.rd) == m.wr
            else !a.write.SetWr? && !a.write.SetRd?
  {
  }

  /** An operation takes effect as the atomic queue would: index writes come with their Take, failures
      take effect at the read of the other side's index, and no other step changes the queue. */
  lemma {:induction false} TakeEffect(m: Shared, w: nat, t: nat, th: Thread, c: Command, p: Phase)
    requires ShapedMemory(m, w) && ShapedThread(m.n, w, th) && m.rd != m.wr
    requires Locks(m, t, th) && ThreadInv(m, w, th, p)
    ensures RightEffect(m, w, t, th, c)
  {
    hide Act, ThreadInv, Locks, Perform, ShapedThread;
    ActPromises(m, w, t, th, c, p);
    ActTakes(m, w, t, th, c, p);
    WriteEffect(m, w, t, Act(m, w, t, th, c).write);
    Publish(m.mem, m.rd, m.wr);
    Claim(m.mem, m.rd, m.wr);
  }

  lemma QueueStep(s: System, t: nat, c: Command)
    requires Inv(s) && t < |s.threads|
    ensures QueueInv(Step(s, Move(t, c)))
  {
    hide Act, Perform, ThreadInv, Locks, Answer, After, Replay, PhaseOf, Guarantee, ShapedThread;
    var m, th, p := s.shared, s.threads[t], PhaseOf(s.history, t);
    assert Locks(m, t, th) && ThreadInv(m, s.w, th, p);
    ActPromises(m, s.w, t, th, c, p);
    TakeEffect(m, s.w, t, th, c, p);
    var a := Act(m, s.w, t, th, c);
    if a.events == [] {
      assert Step(s, Move(t, c)).history == s.history;
    } else {
      assert a.events == [a.events[0]];
      ExtendReplay(m.n - 2, s.history, a.events[0]);
    }
  }

  lemma {:induction false} ThreadsStep(s: System, t: nat, c: Command)
    requires Inv(s) && t < |s.threads|
    ensures ThreadsInv(Step(s, Move(t, c)))
  {
    hide Act, ThreadInv, Locks, PhaseOf, NextPhase, Guarantee;
    var m, th := s.shared, s.threads[t];
    var p := PhaseOf(s.history, t);
    assert Locks(m, t, th) && ThreadInv(m, s.w, th, p);
    ActPromises(m, s.w, t, th, c, p);
    ActKeepsLocks(m, s.w, t, th, c);
    OwnStep(m, s.w, t, th, c, p);
    var a := Act(m, s.w, t, th, c);
    var s' := Step(s, Move(t, c));
    assert a.events == [] || a.events == [a.events[0]];
    forall u: nat ensures PhaseOf(s'.history, u) ==
                          if u == t && a.events != [] then NextPhase(p, a.events[0]) else PhaseOf(s.history, u)
    {
      if a.events != [] {
        ExtendPhase(s.history, a.events[0], u);
      } else {
        assert s'.history == s.history;
      }
    }
    forall u | 0 <= u < |s.threads|
      ensures Locks(s'.shared, u, s'.threads[u])
      ensures ThreadInv(s'.shared, s.w, s'.threads[u], PhaseOf(s'.history, u))
    {
      if u != t {
        OtherStep(m, s.w, t, a.write, u, s.threads[u], PhaseOf(s.history, u));
      }
    }
  }

  /** Every state of every schedule satisfies the invariant. */
  lemma {:induction false} Reachable(s: System, moves: seq<Move>)
    requires Initial(s)
    ensures Shaped(s) && Inv(Run(s, moves))
  {
    if moves == [] {
      InitialInv(s);
    } else {
      var mv := moves[|moves| - 1];
      Reachable(s, moves[..|moves| - 1]);
      if mv.tid < |s.threads| {
        QueueStep(Run(s, moves[..|moves| - 1]), mv.tid, mv.command);
        ThreadsStep(Run(s, moves[..|moves| - 1]), mv.tid, mv.command);
      }
    }
  }
}
