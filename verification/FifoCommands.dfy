/** What becomes of a command: from the moment an idle thread is given one to the moment it is idle again. */
module FifoCommands {
  import opened Common
  import opened FifoHistory
  import opened FifoProtocol
  import opened FifoSafety
  import opened FifoTheorems
  import opened FifoUpdates

  // ---------- What a command asks for ----------

  /** A call of AddLog or Update pushes again and again, each failed push followed by a pop; `job` is what the loop
      holds in that round, `out` what the pop found. */
  datatype Round = Round(job: Job, out: Outcome)

  /** The events of one operation. */
  function Operation(t: nat, job: Job, op: Op, out: Outcome): seq<Event> {
    [Call(t, job, op), Take(t, job, op, out), Return(t, job, op, out)]
  }

  /** The events of failed rounds. */
  function Rounds(t: nat, rounds: seq<Round>): seq<Event> {
    if rounds == [] then []
    else
      var r := rounds[|rounds| - 1];
      Rounds(t, rounds[..|rounds| - 1])
      + if r.job == Once then [] else Operation(t, r.job, Push(r.job.item), Full) + Operation(t, r.job, Pop, r.out)
  }

  /** AddLog goes on with its own record; Update goes on with the record its pop found, if it found one. */
  predicate GoesOn(r: Round, next: Job) {
    match r.job
    case Once => false
    case Adding(x) => next == Adding(x)
    case Updating(x, _) =>
      match r.out
      case Popped(y) => next == Updating(y, true)
      case Empty => next == r.job
      case _ => false
  }

  /** The rounds lead from the job `first` to the job `last`; every pop found a record or an empty queue. */
  predicate Chain(first: Job, rounds: seq<Round>, last: Job) {
    if rounds == [] then last == first
    else
      var r := rounds[|rounds| - 1];
      (r.out.Popped? || r.out.Empty?) && GoesOn(r, last) && Chain(first, rounds[..|rounds| - 1], r.job)
  }

  ghost predicate PlacedAfter(t: nat, first: Job, es: seq<Event>) {
    exists rounds, last: Job :: last != Once && Chain(first, rounds, last)
      && es == Rounds(t, rounds) + Operation(t, last, Push(last.item), Pushed)
  }

  /** All that thread `t` did for the command `c`: a push or a pop once, whatever came of it; for AddLog and Update
      failed rounds and then one push that succeeded. */
  ghost predicate Done(t: nat, c: Command, es: seq<Event>) {
    match c
    case Rest => es == []
    case DoPush(x) => exists out :: out in {Pushed, Full} && es == Operation(t, Once, Push(x), out)
    case DoPop => exists out: Outcome :: (out.Popped? || out.Empty?) && es == Operation(t, Once, Pop, out)
    case DoAddLog(x) => PlacedAfter(t, Adding(x), es)
    case DoUpdate(x) => PlacedAfter(t, Updating(x, false), es)
  }

  /** The job and the operation a command begins with. */
  function FirstJob(c: Command): Job {
    match c
    case DoAddLog(x) => Adding(x)
    case DoUpdate(x) => Updating(x, false)
    case _ => Once
  }

  function FirstOp(c: Command): Op {
    match c
    case DoPush(x) => Push(x)
    case DoAddLog(x) => Push(x)
    case DoUpdate(x) => Push(x)
    case _ => Pop
  }

  /** The command asks for something, and its record has the right size. */
  predicate Proper(w: nat, c: Command) {
    c != Rest && (FirstOp(c).Push? ==> |FirstOp(c).item| == w)
  }

  // ---------- The events so far ----------

  /** The failed push that a loop's pop follows. */
  function Failed(t: nat, job: Job, op: Op): seq<Event> {
    if job != Once && op == Pop then Operation(t, job, Push(job.item), Full) else []
  }

  /** The events since the last round, for a thread in phase `p`. */
  function Tail(t: nat, p: Phase): seq<Event> {
    match p
    case Called(job, op) => Failed(t, job, op) + [Call(t, job, op)]
    case Took(job, op, out) => Failed(t, job, op) + [Call(t, job, op), Take(t, job, op, out)]
    case Retry(job, op) => Failed(t, job, op)
    case _ => []
  }

  function JobIn(p: Phase): Job {
    match p
    case Called(job, _) => job
    case Took(job, _, _) => job
    case Retry(job, _) => job
    case _ => Once
  }

  predicate Midway(p: Phase) {
    p.Called? || p.Took? || p.Retry?
  }

  /** The answer fits the operation. */
  predicate Fitting(p: Phase) {
    p.Took? ==> if p.op.Push? then p.out in {Pushed, Full} else p.out.Popped? || p.out.Empty?
  }

  /** `es` is what thread `t` has done for the command so far. */
  ghost predicate SoFar(t: nat, c: Command, rounds: seq<Round>, p: Phase, es: seq<Event>) {
    && Midway(p) && InLoop(p) && Chain(FirstJob(c), rounds, JobIn(p)) && es == Rounds(t, rounds) + Tail(t, p)
    && (FirstJob(c) == Once ==> rounds == [] && JobIn(p) == Once && !p.Retry? && p.op == FirstOp(c))
    && (FirstJob(c) != Once ==> JobIn(p) != Once)
  }

  /** The command's first event. */
  lemma FirstEvent(t: nat, c: Command, e: Event)
    requires e == Call(t, FirstJob(c), FirstOp(c)) && c != Rest
    ensures NextPhase(Free, e) != Broken
    ensures SoFar(t, c, [], NextPhase(Free, e), [e])
  {
  }

  /** The last event completes the command. */
  lemma LastEvent(t: nat, c: Command, rounds: seq<Round>, p: Phase, es: seq<Event>, e: Event)
    requires c != Rest && SoFar(t, c, rounds, p, es) && Fitting(p) && e.tid == t && NextPhase(p, e) == Free
    ensures Done(t, c, es + [e])
  {
    assert p.Took? && e == Return(t, p.job, p.op, p.out);
    if p.job == Once {
      assert es + [e] == Operation(t, Once, p.op, p.out);
    } else {
      assert p.op == Push(p.job.item) && p.out == Pushed;
      assert es + [e] == Rounds(t, rounds) + Operation(t, p.job, p.op, Pushed);
    }
  }

  lemma ReturnsFromPop(t: nat, c: Command, rounds: seq<Round>, p: Phase, es: seq<Event>, e: Event)
    requires c != Rest && SoFar(t, c, rounds, p, es) && Fitting(p) && e.tid == t && NextPhase(p, e) != Broken
    requires p.Took? && p.job != Once && p.op == Pop
    ensures SoFar(t, c, rounds + [Round(p.job, p.out)], NextPhase(p, e), es + [e])
  {
    var rounds' := rounds + [Round(p.job, p.out)];
    assert rounds'[..|rounds|] == rounds;
    assert e == Return(t, p.job, Pop, p.out);
    assert Tail(t, p) + [e] == Operation(t, p.job, Push(p.job.item), Full) + Operation(t, p.job, Pop, p.out);
    assert Tail(t, NextPhase(p, e)) == [];
    assert es + [e] == Rounds(t, rounds) + (Tail(t, p) + [e]);
    assert Rounds(t, rounds') + [] == Rounds(t, rounds');
  }

  lemma StaysInRound(t: nat, c: Command, rounds: seq<Round>, p: Phase, es: seq<Event>, e: Event)
    requires c != Rest && SoFar(t, c, rounds, p, es) && Fitting(p) && e.tid == t
    requires NextPhase(p, e) != Broken && NextPhase(p, e) != Free
    requires !(p.Took? && p.job != Once && p.op == Pop)
    ensures SoFar(t, c, rounds, NextPhase(p, e), es + [e])
  {
    assert Tail(t, NextPhase(p, e)) == Tail(t, p) + [e];
    assert es + [e] == Rounds(t, rounds) + (Tail(t, p) + [e]);
  }

  /** One event more: the command goes on, or is done. */
  lemma NextEvent(t: nat, c: Command, rounds: seq<Round>, p: Phase, es: seq<Event>, e: Event)
    returns (rounds': seq<Round>)
    requires c != Rest && SoFar(t, c, rounds, p, es) && Fitting(p) && e.tid == t
    requires NextPhase(p, e) != Broken
    ensures NextPhase(p, e) == Free ==> Done(t, c, es + [e])
    ensures NextPhase(p, e) != Free ==> SoFar(t, c, rounds', NextPhase(p, e), es + [e])
  {
    rounds' := rounds;
    if NextPhase(p, e) == Free {
      LastEvent(t, c, rounds, p, es, e);
    } else if p.Took? && p.job != Once && p.op == Pop {
      rounds' := rounds + [Round(p.job, p.out)];
      ReturnsFromPop(t, c, rounds, p, es, e);
    } else {
      StaysInRound(t, c, rounds, p, es, e);
    }
  }

  // ---------- From the command to the next idle moment ----------

  /** The events of thread `t` since position `from`. */
  function ByThread(h: History, from: nat, t: nat): seq<Event> {
    if |h| <= from then []
    else
      var e := h[|h| - 1];
      ByThread(h[..|h| - 1], from, t) + if e.tid == t then [e] else []
  }

  lemma ByThreadNext(h: History, e: Event, from: nat, t: nat)
    requires from <= |h|
    ensures ByThread(h + [e], from, t) == if e.tid == t then ByThread(h, from, t) + [e] else ByThread(h, from, t)
  {
    assert (h + [e])[..|h|] == h;
    assert ByThread(h, from, t) + [] == ByThread(h, from, t);
  }

  /** A thread at `th` in phase `p` that has done `es` for the command `c` and is not done. */
  ghost predicate Working(t: nat, c: Command, th: Thread, p: Phase, es: seq<Event>) {
    && th != Idle
    && (|| (p == Free && es == [] && th == Busy(FirstJob(c), FirstOp(c), Begin))
        || exists rounds :: SoFar(t, c, rounds, p, es))
  }

  /** Thread `t`, given command `c` when the history had `from` events, is at work on it. */
  ghost predicate AtWork(s: System, t: nat, c: Command, from: nat) {
    && Inv(s) && t < |s.threads| && from <= |s.history|
    && Working(t, c, s.threads[t], PhaseOf(s.history, t), ByThread(s.history, from, t))
  }

  /** A busy thread becomes idle exactly with the return that ends its command, and a command begins with a call. */
  lemma ActEnds(m: Shared, w: nat, t: nat, th: Thread, c: Command, p: Phase)
    requires ShapedMemory(m, w) && ShapedThread(m.n, w, th) && th.Busy?
    requires Locks(m, t, th) && ThreadInv(m, w, th, p)
    ensures var a := Act(m, w, t, th, c);
            && |a.events| <= 1
            && (th.stage == Begin ==> a.events == [Call(t, th.job, th.op)])
            && (a.thread == Idle <==> a.events != [] && NextPhase(p, a.events[0]) == Free)
            && (a.events != [] ==> a.events[0].tid == t)
  {
  }

  lemma KeepsInv(s: System, mv: Move)
    requires Inv(s)
    ensures Inv(Step(s, mv))
  {
    if mv.tid < |s.threads| {
      hide Act, ThreadInv, Locks;
      QueueStep(s, mv.tid, mv.command);
      ThreadsStep(s, mv.tid, mv.command);
    }
  }

  /** One event of the thread at work, which is then at `th'`. */
  lemma OneEvent(cap: nat, h: History, t: nat, c: Command, th: Thread, es: seq<Event>, e: Event, th': Thread)
    requires Replay(cap, h).Some? && e.tid == t && c != Rest && NextPhase(PhaseOf(h, t), e) != Broken
    requires Working(t, c, th, PhaseOf(h, t), es)
    requires th.Busy? && th.stage == Begin ==> e == Call(t, th.job, th.op)
    requires th' == Idle <==> NextPhase(PhaseOf(h, t), e) == Free
    ensures if th' == Idle then Done(t, c, es + [e]) else Working(t, c, th', NextPhase(PhaseOf(h, t), e), es + [e])
  {
    var p := PhaseOf(h, t);
    if rounds :| SoFar(t, c, rounds, p, es) {
      if p.Took? {
        TookFits(cap, h, t);
      }
      var rounds' := NextEvent(t, c, rounds, p, es, e);
    } else {
      FirstEvent(t, c, e);
      assert es + [e] == [e];
    }
  }

  /** A step of it without an event. */
  lemma NoEvent(t: nat, c: Command, th: Thread, p: Phase, es: seq<Event>, th': Thread)
    requires Working(t, c, th, p, es) && th' != Idle && (th.Busy? ==> th.stage != Begin)
    ensures Working(t, c, th', p, es)
  {
  }

  lemma ThreadNotBroken(s: System, t: nat)
    requires Inv(s) && t < |s.threads|
    ensures PhaseOf(s.history, t) != Broken
  {
    assert ThreadInv(s.shared, s.w, s.threads[t], PhaseOf(s.history, t));
  }

  /** A step of a busy thread logs nothing and leaves it busy, or logs one event `e` of its own. */
  lemma BusyStep(s: System, t: nat, rest: Command) returns (e: Option<Event>)
    requires Inv(s) && t < |s.threads| && s.threads[t].Busy?
    ensures var (r, th, p) := (Step(s, Move(t, rest)), s.threads[t], PhaseOf(s.history, t));
            match e
            case None => r.history == s.history && th.stage != Begin && r.threads[t] != Idle
            case Some(ev) =>
              && ev.tid == t && r.history == s.history + [ev] && NextPhase(p, ev) != Broken
              && PhaseOf(r.history, t) == NextPhase(p, ev)
              && (th.stage == Begin ==> ev == Call(t, th.job, th.op))
              && (r.threads[t] == Idle <==> NextPhase(p, ev) == Free)
  {
    var th, p := s.threads[t], PhaseOf(s.history, t);
    assert Locks(s.shared, t, th) && ThreadInv(s.shared, s.w, th, p);
    KeepsInv(s, Move(t, rest));
    ThreadNotBroken(Step(s, Move(t, rest)), t);
    ActEnds(s.shared, s.w, t, th, rest, p);
    var a := Act(s.shared, s.w, t, th, rest);
    hide Act, ThreadInv, Locks, NextPhase, PhaseOf, Replay;
    e := if a.events == [] then None else Some(a.events[0]);
    if e.Some? {
      assert a.events == [e.value];
      ExtendPhase(s.history, e.value, t);
    } else {
      assert s.history + a.events == s.history;
    }
  }

  /** The history after one event of the thread at work. */
  lemma HistoryNext(cap: nat, h: History, from: nat, t: nat, c: Command, th: Thread, e: Event, th': Thread)
    requires Replay(cap, h).Some? && from <= |h| && Working(t, c, th, PhaseOf(h, t), ByThread(h, from, t)) && c != Rest
    requires e.tid == t && NextPhase(PhaseOf(h, t), e) != Broken
    requires th.Busy? && th.stage == Begin ==> e == Call(t, th.job, th.op)
    requires th' == Idle <==> NextPhase(PhaseOf(h, t), e) == Free
    ensures if th' == Idle then Done(t, c, ByThread(h + [e], from, t))
            else Working(t, c, th', PhaseOf(h + [e], t), ByThread(h + [e], from, t))
  {
    ExtendPhase(h, e, t);
    ByThreadNext(h, e, from, t);
    OneEvent(cap, h, t, c, th, ByThread(h, from, t), e, th');
  }

  lemma WorkFacts(s: System, t: nat, c: Command, from: nat)
    requires AtWork(s, t, c, from)
    ensures s.threads[t].Busy? && Replay(s.shared.n - 2, s.history).Some?
  {
  }

  /** A step of thread `t` while it is at work. */
  lemma WorksOn(s: System, t: nat, c: Command, from: nat, rest: Command)
    requires AtWork(s, t, c, from) && c != Rest
    ensures var r := Step(s, Move(t, rest));
            && from <= |r.history|
            && (r.threads[t] == Idle ==> Done(t, c, ByThread(r.history, from, t)))
            && (r.threads[t] != Idle ==> AtWork(r, t, c, from))
  {
    var th, r := s.threads[t], Step(s, Move(t, rest));
    WorkFacts(s, t, c, from);
    hide Step, Inv, NextPhase, Working, Done, PhaseOf, ByThread, Replay;
    KeepsInv(s, Move(t, rest));
    var e := BusyStep(s, t, rest);
    match e
    case None =>
      NoEvent(t, c, th, PhaseOf(s.history, t), ByThread(s.history, from, t), r.threads[t]);
    case Some(ev) =>
      HistoryNext(s.shared.n - 2, s.history, from, t, c, th, ev, r.threads[t]);
  }

  /** A step of another thread. */
  lemma OthersLeave(s: System, t: nat, c: Command, from: nat, mv: Move)
    requires AtWork(s, t, c, from) && mv.tid != t
    ensures AtWork(Step(s, mv), t, c, from)
  {
    KeepsInv(s, mv);
    if mv.tid < |s.threads| {
      StepLogsOwn(s, mv);
      hide Act, Inv, Working, PhaseOf, ByThread;
      var h := Step(s, mv).history;
      if h != s.history {
        var e: Event :| e.tid == mv.tid && h == s.history + [e];
        ExtendPhase(s.history, e, t);
        ByThreadNext(s.history, e, from, t);
      }
    }
  }

  /** Thread `t` is busy at every moment before the end of the schedule. */
  ghost predicate BusyThroughout(s: System, moves: seq<Move>, t: nat)
    requires Shaped(s) && t < |s.threads|
  {
    moves != [] ==>
      var front := moves[..|moves| - 1];
      Run(s, front).threads[t] != Idle && BusyThroughout(s, front, t)
  }

  lemma CommandBegins(s: System, t: nat, c: Command)
    requires Inv(s) && t < |s.threads| && s.threads[t] == Idle && Proper(s.w, c)
    ensures Step(s, Move(t, c)) == s.(threads := s.threads[t := Busy(FirstJob(c), FirstOp(c), Begin)])
    ensures AtWork(Step(s, Move(t, c)), t, c, |s.history|)
  {
    KeepsInv(s, Move(t, c));
    assert ThreadInv(s.shared, s.w, s.threads[t], PhaseOf(s.history, t));
    assert s.history + [] == s.history;
  }

  lemma {:induction false} WorksThroughout(s: System, t: nat, c: Command, from: nat, moves: seq<Move>)
    requires AtWork(s, t, c, from) && c != Rest && BusyThroughout(s, moves, t)
    ensures var r := Run(s, moves);
            && (r.threads[t] == Idle ==> Done(t, c, ByThread(r.history, from, t)))
            && (r.threads[t] != Idle ==> AtWork(r, t, c, from))
  {
    if moves != [] {
      var front, mv := moves[..|moves| - 1], moves[|moves| - 1];
      WorksThroughout(s, t, c, from, front);
      hide AtWork, Done, Step, Inv;
      if mv.tid == t {
        WorksOn(Run(s, front), t, c, from, mv.command);
      } else {
        OthersLeave(Run(s, front), t, c, from, mv);
      }
    }
  }

  /** In any run of any threads: when an idle thread is given a command whose record has the right size, then from
      that moment to the next at which it is idle it does exactly what the command asks for. */
  lemma {:induction false} CommandIsDone(s: System, before: seq<Move>, t: nat, c: Command, during: seq<Move>)
    requires Initial(s) && t < |s.threads| && Run(s, before).threads[t] == Idle && Proper(s.w, c)
    requires BusyThroughout(Step(Run(s, before), Move(t, c)), during, t)
    requires Run(Step(Run(s, before), Move(t, c)), during).threads[t] == Idle
    ensures var r := Run(Step(Run(s, before), Move(t, c)), during);
            Done(t, c, ByThread(r.history, |Run(s, before).history|, t))
  {
    Reachable(s, before);
    CommandBegins(Run(s, before), t, c);
    WorksThroughout(Step(Run(s, before), Move(t, c)), t, c, |Run(s, before).history|, during);
  }

  // ---------- How long a loop takes ----------

  function FailedIn(es: seq<Event>): nat {
    if es == [] then 0
    else
      var e := es[|es| - 1];
      FailedIn(es[..|es| - 1]) + Ones(e.Take? && e.job != Once && e.out == Full)
  }

  lemma {:induction false} FailedAppended(a: seq<Event>, b: seq<Event>)
    ensures FailedIn(a + b) == FailedIn(a) + FailedIn(b)
  {
    if b == [] {
      assert a + b == a;
    } else {
      assert (a + b)[..|a + b| - 1] == a + b[..|b| - 1];
      FailedAppended(a, b[..|b| - 1]);
    }
  }

  lemma FailedInOperation(t: nat, job: Job, op: Op, out: Outcome)
    ensures FailedIn(Operation(t, job, op, out)) == Ones(job != Once && out == Full)
  {
    var es := Operation(t, job, op, out);
    assert es[..2] == [Call(t, job, op), Take(t, job, op, out)] && es[..2][..1] == [Call(t, job, op)];
    assert FailedIn(es[..2][..1]) == 0;
  }

  /** Every round is one failed push. */
  lemma {:induction false} FailedInRounds(t: nat, first: Job, rounds: seq<Round>, last: Job)
    requires Chain(first, rounds, last)
    ensures FailedIn(Rounds(t, rounds)) == |rounds|
  {
    if rounds != [] {
      var front, r := rounds[..|rounds| - 1], rounds[|rounds| - 1];
      FailedInRounds(t, first, front, r.job);
      var (push, pop) := (Operation(t, r.job, Push(r.job.item), Full), Operation(t, r.job, Pop, r.out));
      FailedAppended(Rounds(t, front), push + pop);
      FailedAppended(push, pop);
      FailedInOperation(t, r.job, Push(r.job.item), Full);
      FailedInOperation(t, r.job, Pop, r.out);
    }
  }

  /** What RetriesBounded counts are the failed pushes among the thread's events. */
  lemma {:induction false} RetriesAreFailed(h: History, from: nat, t: nat)
    ensures Retries(h, from, t) == FailedIn(ByThread(h, from, t))
  {
    if |h| > from {
      var g, e := h[..|h| - 1], h[|h| - 1];
      RetriesAreFailed(g, from, t);
      if e.tid == t {
        assert (ByThread(g, from, t) + [e])[..|ByThread(g, from, t)|] == ByThread(g, from, t);
      } else {
        assert ByThread(g, from, t) + [] == ByThread(g, from, t);
      }
    }
  }

  /** No push fails after one that succeeded. */
  predicate PushLast(es: seq<Event>) {
    forall i, j :: 0 <= i < j < |es| && es[i].Take? && es[i].out == Pushed ==> !(es[j].Take? && es[j].out == Full)
  }

  lemma {:induction false} NoOwnPush(h: History, from: nat, t: nat)
    requires forall i :: 0 <= i < |ByThread(h, from, t)| ==>
               !(ByThread(h, from, t)[i].Take? && ByThread(h, from, t)[i].out == Pushed)
    ensures Publishes(h, from, t, true) == 0
  {
    if |h| > from {
      var g, e := h[..|h| - 1], h[|h| - 1];
      var (a, b) := (ByThread(g, from, t), ByThread(h, from, t));
      assert b == if e.tid == t then a + [e] else a + [];
      assert forall i :: 0 <= i < |a| ==> b[i] == a[i];
      assert e.tid == t ==> b[|a|] == e;
      NoOwnPush(g, from, t);
    }
  }

  lemma {:induction false} RetriesOfCall(cap: nat, h: History, from: nat, t: nat)
    requires cap >= 1 && Linearizable(cap, h) && PushLast(ByThread(h, from, t))
    ensures Retries(h, from, t) <= 1 + Publishes(h, from, t, false)
  {
    if |h| > from {
      PrefixLinearizable(cap, h);
      var g, e := h[..|h| - 1], h[|h| - 1];
      var (a, b) := (ByThread(g, from, t), ByThread(h, from, t));
      assert b == if e.tid == t then a + [e] else a + [];
      assert forall i :: 0 <= i < |a| ==> b[i] == a[i];
      RetriesOfCall(cap, g, from, t);
      if e.tid == t && e.Take? && e.job != Once && e.out == Full {
        assert b[|a|] == e;
        NoOwnPush(g, from, t);
        RetriesBoundedAux(cap, h, from, t);
      }
    }
  }

  lemma {:induction false} NoPushInRounds(t: nat, rounds: seq<Round>, first: Job, last: Job)
    requires Chain(first, rounds, last)
    ensures forall i :: 0 <= i < |Rounds(t, rounds)| ==>
              !(Rounds(t, rounds)[i].Take? && Rounds(t, rounds)[i].out == Pushed)
  {
    if rounds != [] {
      var r := rounds[|rounds| - 1];
      NoPushInRounds(t, rounds[..|rounds| - 1], first, r.job);
    }
  }

  lemma OnePushLast(t: nat, rounds: seq<Round>, last: Job)
    requires last != Once
    requires forall i :: 0 <= i < |Rounds(t, rounds)| ==>
               !(Rounds(t, rounds)[i].Take? && Rounds(t, rounds)[i].out == Pushed)
    ensures PushLast(Rounds(t, rounds) + Operation(t, last, Push(last.item), Pushed))
  {
    hide Rounds;
    var es, k := Rounds(t, rounds) + Operation(t, last, Push(last.item), Pushed), |Rounds(t, rounds)|;
    assert forall i :: 0 <= i < k ==> es[i] == Rounds(t, rounds)[i];
    assert es[k].Call? && es[k + 2].Return? && |es| == k + 3;
  }

  /** An AddLog or Update call that has ended needed at most one failed round more than records that other threads
      published in the meantime. */
  lemma {:induction false} RoundsBounded(cap: nat, h: History, from: nat, t: nat, first: Job)
    requires cap >= 1 && Linearizable(cap, h) && first != Once && PlacedAfter(t, first, ByThread(h, from, t))
    ensures exists rounds, last: Job :: last != Once && Chain(first, rounds, last)
              && ByThread(h, from, t) == Rounds(t, rounds) + Operation(t, last, Push(last.item), Pushed)
              && |rounds| <= 1 + Publishes(h, from, t, false)
  {
    var es := ByThread(h, from, t);
    var rounds, last: Job :| last != Once && Chain(first, rounds, last)
      && es == Rounds(t, rounds) + Operation(t, last, Push(last.item), Pushed);
    NoPushInRounds(t, rounds, first, last);
    FailedAppended(Rounds(t, rounds), Operation(t, last, Push(last.item), Pushed));
    FailedInOperation(t, last, Push(last.item), Pushed);
    FailedInRounds(t, first, rounds, last);
    RetriesAreFailed(h, from, t);
    OnePushLast(t, rounds, last);
    hide Rounds, PushLast, ByThread, FailedIn, Linearizable, Chain, Retries, Publishes;
    RetriesOfCall(cap, h, from, t);
  }

  /** A thread told to rest, or given a record of the wrong size, does nothing. */
  lemma {:induction false} NothingToDo(s: System, t: nat, c: Command)
    requires Shaped(s) && t < |s.threads| && s.threads[t] == Idle && !Proper(s.w, c)
    ensures Step(s, Move(t, c)) == s
  {
    assert s.history + [] == s.history;
  }
}
