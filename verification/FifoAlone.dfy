/** A command carried out by one thread while the others stand still: it ends, and what it does to the queue. */
module FifoAlone {
  import opened Common
  import opened Ring
  import opened FifoHistory
  import opened FifoProtocol
  import opened FifoSafety
  import opened FifoSolo
  import opened FifoCommands

  /** What a queue holding `q` with room for `cap` records holds after the command. */
  function Result(cap: nat, q: seq<Item>, c: Command): seq<Item> {
    match c
    case Rest => q
    case DoPush(x) => if |q| < cap then q + [x] else q
    case DoPop => if q == [] then [] else q[1..]
    case DoAddLog(x) => LastN(cap, q + [x])
    case DoUpdate(x) => if |q| < cap then q + [x] else if q == [] then q else q[1..] + [q[0]]
  }

  /** How the last operation of the command came out. */
  function Answered(cap: nat, q: seq<Item>, c: Command): Outcome {
    match c
    case DoPush(_) => if |q| < cap then Pushed else Full
    case DoPop => if q == [] then Empty else Popped(q[0])
    case _ => Pushed
  }

  // ---------- What the events do to the atomic queue ----------

  lemma ReplayOperation(cap: nat, h: History, t: nat, job: Job, op: Op, out: Outcome)
    requires Replay(cap, h + Operation(t, job, op, out)).Some?
    ensures Replay(cap, h).Some?
    ensures var q := Replay(cap, h).value;
            Answer(cap, q, op) == out && Replay(cap, h + Operation(t, job, op, out)) == Some(After(cap, q, op))
  {
    var h1 := h + [Call(t, job, op)];
    var h2 := h1 + [Take(t, job, op, out)];
    assert h + Operation(t, job, op, out) == h2 + [Return(t, job, op, out)];
    ExtendReplay(cap, h, Call(t, job, op));
    ExtendReplay(cap, h1, Take(t, job, op, out));
    ExtendReplay(cap, h2, Return(t, job, op, out));
  }

  /** Alone, there is at most one failed round, and then the queue was full and its oldest record is out. */
  lemma {:induction false} ReplayRounds(cap: nat, h: History, t: nat, first: Job, rounds: seq<Round>, last: Job)
    requires cap >= 1 && Chain(first, rounds, last) && Replay(cap, h + Rounds(t, rounds)).Some?
    ensures Replay(cap, h).Some?
    ensures var q := Replay(cap, h).value;
            if rounds == [] then last == first && Replay(cap, h + Rounds(t, rounds)) == Some(q)
            else && |rounds| == 1 && |q| == cap && rounds[0] == Round(first, Popped(q[0]))
                 && Replay(cap, h + Rounds(t, rounds)) == Some(q[1..])
  {
    if rounds == [] {
      assert h + Rounds(t, rounds) == h;
    } else {
      var front, r := rounds[..|rounds| - 1], rounds[|rounds| - 1];
      var h1 := h + Rounds(t, front);
      var h2 := h1 + Operation(t, r.job, Push(r.job.item), Full);
      assert h + Rounds(t, rounds) == h2 + Operation(t, r.job, Pop, r.out);
      ReplayOperation(cap, h2, t, r.job, Pop, r.out);
      ReplayOperation(cap, h1, t, r.job, Push(r.job.item), Full);
      ReplayRounds(cap, h, t, first, front, r.job);
      assert front == [];
    }
  }

  lemma ReplayPlaced(cap: nat, h: History, t: nat, first: Job, es: seq<Event>)
    requires cap >= 1 && first != Once && PlacedAfter(t, first, es) && Replay(cap, h + es).Some?
    ensures Replay(cap, h).Some? && es != []
    ensures es[|es| - 1].Return? && es[|es| - 1].out == Pushed
    ensures var q := Replay(cap, h).value;
            Replay(cap, h + es) ==
            Some(if |q| < cap then q + [first.item] else q[1..] + [if first.Updating? then q[0] else first.item])
  {
    var rounds, last: Job :| last != Once && Chain(first, rounds, last)
      && es == Rounds(t, rounds) + Operation(t, last, Push(last.item), Pushed);
    assert h + es == (h + Rounds(t, rounds)) + Operation(t, last, Push(last.item), Pushed);
    ReplayOperation(cap, h + Rounds(t, rounds), t, last, Push(last.item), Pushed);
    ReplayRounds(cap, h, t, first, rounds, last);
  }

  lemma ReplayDone(cap: nat, h: History, t: nat, c: Command, es: seq<Event>)
    requires c != Rest && Done(t, c, es) && Replay(cap, h + es).Some? && (c.DoAddLog? || c.DoUpdate? ==> cap >= 1)
    ensures Replay(cap, h).Some?
    ensures var q := Replay(cap, h).value;
            && Replay(cap, h + es) == Some(Result(cap, q, c))
            && es != [] && es[|es| - 1].Return? && es[|es| - 1].out == Answered(cap, q, c)
  {
    match c
    case DoPush(x) =>
      var out :| out in {Pushed, Full} && es == Operation(t, Once, Push(x), out);
      ReplayOperation(cap, h, t, Once, Push(x), out);
    case DoPop =>
      var out: Outcome :| (out.Popped? || out.Empty?) && es == Operation(t, Once, Pop, out);
      ReplayOperation(cap, h, t, Once, Pop, out);
    case DoAddLog(x) =>
      ReplayPlaced(cap, h, t, Adding(x), es);
      var q := Replay(cap, h).value;
      assert |q| == cap ==> (q + [x])[1..] == q[1..] + [x];
    case DoUpdate(x) => ReplayPlaced(cap, h, t, Updating(x, false), es);
  }

  // ---------- A thread scheduled alone ----------

  lemma {:induction false} InvThroughout(s: System, moves: seq<Move>)
    requires Inv(s)
    ensures Inv(Run(s, moves))
  {
    if moves != [] {
      InvThroughout(s, moves[..|moves| - 1]);
      hide Inv, Step;
      KeepsInv(Run(s, moves[..|moves| - 1]), moves[|moves| - 1]);
    }
  }

  /** `h` is `before` and then events of thread `t`. */
  ghost predicate GrewBy(before: History, h: History, t: nat) {
    && |before| <= |h| && (forall i :: 0 <= i < |before| ==> h[i] == before[i])
    && forall i :: |before| <= i < |h| ==> h[i].tid == t
  }

  lemma StepGrows(before: History, s: System, mv: Move)
    requires Shaped(s) && mv.tid < |s.threads| && GrewBy(before, s.history, mv.tid)
    ensures GrewBy(before, Step(s, mv).history, mv.tid)
  {
  }

  /** When only `t` is scheduled, the history grows by its events. */
  lemma {:induction false} OnlyItsEvents(s: System, moves: seq<Move>, t: nat)
    requires Shaped(s) && t < |s.threads| && MovesOnly(moves, {t})
    ensures GrewBy(s.history, Run(s, moves).history, t)
  {
    if moves != [] {
      var front, mv := moves[..|moves| - 1], moves[|moves| - 1];
      assert MovesOnly(front, {t}) && mv.tid == t;
      OnlyItsEvents(s, front, t);
      hide GrewBy, Step;
      StepGrows(s.history, Run(s, front), mv);
    }
  }

  lemma {:induction false} AllItsEvents(h: History, before: History, t: nat)
    requires GrewBy(before, h, t)
    ensures h == before + ByThread(h, |before|, t)
  {
    if |h| > |before| {
      AllItsEvents(h[..|h| - 1], before, t);
    }
  }

  /** The queue in `b` and the last outcome are what the command makes of the queue in `a`. */
  ghost predicate RightResult(a: System, b: System, c: Command) {
    && ShapedMemory(a.shared, a.w) && ShapedMemory(b.shared, b.w)
    && a.shared.rd != a.shared.wr && b.shared.rd != b.shared.wr
    && var q := QueueIn(a.shared.mem, a.shared.rd, a.shared.wr);
       && QueueIn(b.shared.mem, b.shared.rd, b.shared.wr) == Result(a.shared.n - 2, q, c)
       && b.history != [] && b.history[|b.history| - 1].Return?
       && b.history[|b.history| - 1].out == Answered(a.shared.n - 2, q, c)
  }

  lemma ResultOfEvents(a: System, b: System, t: nat, c: Command)
    requires QueueInv(a) && QueueInv(b) && b.shared.n == a.shared.n && c != Rest
    requires c.DoAddLog? || c.DoUpdate? ==> a.shared.n >= 3
    requires GrewBy(a.history, b.history, t) && Done(t, c, ByThread(b.history, |a.history|, t))
    ensures RightResult(a, b, c)
  {
    AllItsEvents(b.history, a.history, t);
    hide Done, Result, Answered, Replay, ByThread, GrewBy;
    ReplayDone(a.shared.n - 2, a.history, t, c, ByThread(b.history, |a.history|, t));
  }

  lemma {:induction false} AloneFrom(a: System, t: nat, c: Command, during: seq<Move>)
    requires Inv(a) && t < |a.threads| && a.threads[t] == Idle && Proper(a.w, c)
    requires c.DoAddLog? || c.DoUpdate? ==> a.shared.n >= 3
    requires MovesOnly(during, {t}) && BusyThroughout(Step(a, Move(t, c)), during, t)
    requires Run(Step(a, Move(t, c)), during).threads[t] == Idle
    ensures RightResult(a, Run(Step(a, Move(t, c)), during), c)
  {
    CommandBegins(a, t, c);
    KeepsInv(a, Move(t, c));
    var a' := Step(a, Move(t, c));
    assert a'.history == a.history;
    hide Step, ThreadsInv, QueueInv, Done, GrewBy, RightResult, AtWork;
    WorksThroughout(a', t, c, |a.history|, during);
    InvThroughout(a', during);
    OnlyItsEvents(a', during, t);
    ResultOfEvents(a, Run(a', during), t, c);
  }

  /** In any reachable state: a command that an idle thread carries out while the others stand still has exactly this
      result on the queue, and its last operation comes out like this. */
  lemma {:induction false} AloneResult(s: System, before: seq<Move>, t: nat, c: Command, during: seq<Move>)
    requires Initial(s) && t < |s.threads| && Run(s, before).threads[t] == Idle && Proper(s.w, c)
    requires c.DoAddLog? || c.DoUpdate? ==> s.shared.n >= 3
    requires MovesOnly(during, {t}) && BusyThroughout(Step(Run(s, before), Move(t, c)), during, t)
    requires Run(Step(Run(s, before), Move(t, c)), during).threads[t] == Idle
    ensures RightResult(Run(s, before), Run(Step(Run(s, before), Move(t, c)), during), c)
  {
    Reachable(s, before);
    AloneFrom(Run(s, before), t, c, during);
  }

  // ---------- It ends ----------

  lemma {:induction false} EarlierIdle(s: System, moves: seq<Move>, t: nat) returns (first: seq<Move>)
    requires Shaped(s) && t < |s.threads| && !BusyThroughout(s, moves, t)
    ensures first <= moves && BusyThroughout(s, first, t) && Run(s, first).threads[t] == Idle
    decreases |moves|
  {
    var front := moves[..|moves| - 1];
    if BusyThroughout(s, front, t) {
      first := front;
    } else {
      first := EarlierIdle(s, front, t);
    }
  }

  /** The shortest schedule to an idle moment. */
  lemma {:induction false} FirstIdle(s: System, moves: seq<Move>, t: nat) returns (first: seq<Move>)
    requires Shaped(s) && t < |s.threads| && Run(s, moves).threads[t] == Idle
    ensures first <= moves && BusyThroughout(s, first, t) && Run(s, first).threads[t] == Idle
    decreases |moves|
  {
    first := moves;
    if !BusyThroughout(s, moves, t) {
      first := EarlierIdle(s, moves, t);
    }
  }

  /** The loop of AddLog or Update, alone: it ends after at most one pop. */
  lemma LoopEnds(from: Start, s: System, t: nat, m: Shared, job: Job, h: History)
    requires t in from.who && Placed(s, t, m) && Unlocked(m) && m.n >= 3 && m.rd != m.wr
    requires job != Once && |job.item| == s.w && Leads(from, At(s, t, m, Busy(job, Push(job.item), Begin), h))
    ensures exists r: System :: Leads(from, r) && t < |r.threads| && r.threads[t] == Idle
  {
    hide Leads;
    if Succ(m.n, m.wr) != m.rd {
      PushStores(from, s, t, m, job, job.item, h);
    } else {
      var out := Popped(m.mem[Succ(m.n, m.rd)]);
      var h' := Logged(h, t, job, Push(job.item), Full);
      var next, m' := AfterPop(job, out), m.(rd := Succ(m.n, m.rd));
      PushFails(from, s, t, m, job, job.item, h);
      PopTakes(from, s, t, m, job, h');
      PushStores(from, s, t, m', next, next.item, Logged(h', t, job, Pop, out));
    }
  }

  lemma OnceEnds(from: Start, s: System, t: nat, m: Shared, op: Op, h: History)
    requires t in from.who && Placed(s, t, m) && Unlocked(m) && m.rd != m.wr
    requires (op.Push? ==> |op.item| == s.w) && Leads(from, At(s, t, m, Busy(Once, op, Begin), h))
    ensures exists r: System :: Leads(from, r) && t < |r.threads| && r.threads[t] == Idle
  {
    hide Leads;
    match op
    case Push(x) =>
      if Succ(m.n, m.wr) != m.rd {
        PushStores(from, s, t, m, Once, x, h);
      } else {
        PushFails(from, s, t, m, Once, x, h);
      }
    case Pop =>
      if Succ(m.n, m.rd) != m.wr {
        PopTakes(from, s, t, m, Once, h);
      } else {
        PopFindsNothing(from, s, t, m, Once, h);
      }
  }

  /** A thread that has just begun a command, scheduled alone, is idle at some point. */
  lemma BegunEnds(a: System, t: nat, c: Command) returns (during: seq<Move>)
    requires Shaped(a) && t < |a.threads| && a.shared.rd != a.shared.wr && Unlocked(a.shared)
    requires Proper(a.w, c) && a.threads[t] == Busy(FirstJob(c), FirstOp(c), Begin)
    requires c.DoAddLog? || c.DoUpdate? ==> a.shared.n >= 3
    ensures MovesOnly(during, {t}) && Run(a, during).threads[t] == Idle
  {
    var from := Start(a, {t});
    StandsStill(from);
    assert a == At(a, t, a.shared, a.threads[t], a.history);
    hide Run, Step, Leads;
    if c.DoAddLog? || c.DoUpdate? {
      LoopEnds(from, a, t, a.shared, FirstJob(c), a.history);
    } else {
      OnceEnds(from, a, t, a.shared, FirstOp(c), a.history);
    }
    var r: System :| Leads(from, r) && t < |r.threads| && r.threads[t] == Idle;
    during := Schedule(from, r);
  }

  /** In any reachable state with free locks: a thread that is given a command and scheduled alone is idle again at
      some point. */
  lemma {:induction false} AloneEnds(s: System, before: seq<Move>, t: nat, c: Command) returns (during: seq<Move>)
    requires Initial(s) && t < |s.threads| && Run(s, before).threads[t] == Idle && Proper(s.w, c)
    requires Unlocked(Run(s, before).shared) && (c.DoAddLog? || c.DoUpdate? ==> s.shared.n >= 3)
    ensures Shaped(s) && MovesOnly(during, {t})
    ensures BusyThroughout(Step(Run(s, before), Move(t, c)), during, t)
    ensures Run(Step(Run(s, before), Move(t, c)), during).threads[t] == Idle
  {
    Reachable(s, before);
    CommandBegins(Run(s, before), t, c);
    var a := Step(Run(s, before), Move(t, c));
    assert a.shared == Run(s, before).shared && a.w == s.w && a.shared.n == s.shared.n;
    hide Run, Step, ThreadsInv, AtWork;
    var moves := BegunEnds(a, t, c);
    during := FirstIdle(a, moves, t);
    forall i | 0 <= i < |during| ensures during[i].tid == t {
      assert during[i] == moves[i];
    }
  }
}
