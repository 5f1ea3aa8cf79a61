/** PushFIFO_MT, PopFIFO_MT and the loops of AddLog and Update as an interleaved step system: every index read, index
    write, lock operation and word copy is one atomic step of one thread. */
module FifoProtocol {
  import opened Common
  import opened Ring
  import opened FifoHistory

  /** Where a thread stands inside an operation. */
  datatype Stage =
    | Begin                                       // about to call
    | Enter                                       // spinning on the lock of its side
    | PushNext                                    // tmp := (wr + 1) % n
    | PushCheck(tmp: nat)                         // compare tmp with rd, read without out_lock_
    | PushDest(tmp: nat)                          // dest := chunk at wr
    | PushCopy(tmp: nat, dest: nat, k: nat)       // copy word k into the chunk
    | PushPublish(tmp: nat)                       // wr := tmp
    | PopNext                                     // tmp := (rd + 1) % n
    | PopCheck(tmp: nat)                          // compare tmp with wr, read without in_lock_
    | PopAdvance(tmp: nat)                        // rd := tmp
    | PopSource                                   // src := chunk at rd
    | PopCopy(src: nat, buf: Item)                // copy word |buf| out of the chunk
    | Leave(out: Outcome)                         // release the lock and return

  datatype Thread = Idle | Busy(job: Job, op: Op, stage: Stage)

  /** The shared memory of one FIFO: `n` chunks, two indices, two locks. */
  datatype Shared = Shared(
    n: nat,
    mem: seq<Item>,
    rd: nat,
    wr: nat,
    inLock: Option<nat>,
    outLock: Option<nat>)

  datatype System = System(shared: Shared, w: nat, threads: seq<Thread>, history: History)

  /** What an idle thread does next. */
  datatype Command = Rest | DoPush(item: Item) | DoPop | DoAddLog(item: Item) | DoUpdate(item: Item)

  /** One scheduling decision. */
  datatype Move = Move(tid: nat, command: Command)

  /** The one write a step makes to the shared memory, if any. */
  datatype Write =
    | Nothing
    | LockIn | UnlockIn | LockOut | UnlockOut
    | StoreWord(dest: nat, k: nat, word: Word)
    | SetWr(index: nat)
    | SetRd(index: nat)

  datatype Action = Action(thread: Thread, write: Write, events: seq<Event>)

  /** Setup: rd = 0, wr = 1, both locks free; the chunks hold whatever the memory held. */
  predicate Initial(s: System) {
    && s.shared.n >= 2 && |s.shared.mem| == s.shared.n
    && (forall i :: 0 <= i < s.shared.n ==> |s.shared.mem[i]| == s.w)
    && s.shared.rd == 0 && s.shared.wr == 1
    && s.shared.inLock == None && s.shared.outLock == None
    && (forall t :: 0 <= t < |s.threads| ==> s.threads[t] == Idle)
    && s.history == []
  }

  /** The shape of the memory: `n` chunks of `w` words and indices inside it. */
  predicate ShapedMemory(m: Shared, w: nat) {
    && m.n >= 2 && |m.mem| == m.n && m.rd < m.n && m.wr < m.n
    && (forall i :: 0 <= i < m.n ==> |m.mem[i]| == w)
  }

  /** A thread's locals address this memory and the stage belongs to the operation. */
  predicate ShapedThread(n: nat, w: nat, th: Thread) {
    th.Busy? ==>
      && (th.job != Once ==> |th.job.item| == w)
      && (th.op.Push? ==> |th.op.item| == w)
      && match th.stage
         case PushNext => th.op.Push?
         case PushCheck(tmp) => th.op.Push? && tmp < n
         case PushDest(tmp) => th.op.Push? && tmp < n
         case PushCopy(tmp, dest, k) => th.op.Push? && tmp < n && dest < n && k <= w
         case PushPublish(tmp) => th.op.Push? && tmp < n
         case PopNext => th.op.Pop?
         case PopCheck(tmp) => th.op.Pop? && tmp < n
         case PopAdvance(tmp) => th.op.Pop? && tmp < n
         case PopSource => th.op.Pop?
         case PopCopy(src, buf) => th.op.Pop? && src < n && |buf| <= w
         case Leave(out) => out.Popped? ==> |out.item| == w
         case _ => true
  }

  predicate Shaped(s: System) {
    && ShapedMemory(s.shared, s.w)
    && forall t :: 0 <= t < |s.threads| ==> ShapedThread(s.shared.n, s.w, s.threads[t])
  }

  /** What an idle thread becomes. */
  function Started(w: nat, c: Command): Thread {
    match c
    case Rest => Idle
    case DoPush(x) => if |x| == w then Busy(Once, Push(x), Begin) else Idle
    case DoPop => Busy(Once, Pop, Begin)
    case DoAddLog(x) => if |x| == w then Busy(Adding(x), Push(x), Begin) else Idle
    case DoUpdate(x) => if |x| == w then Busy(Updating(x, false), Push(x), Begin) else Idle
  }

  /** What a thread becomes when its operation returns: a retry loop goes on until its push succeeds. */
  function Finished(job: Job, op: Op, out: Outcome): Thread {
    if job == Once then Idle
    else if op == Pop then Busy(AfterPop(job, out), Push(AfterPop(job, out).item), Begin)
    else if out == Full then Busy(job, Pop, Begin)
    else Idle
  }

  /** The step of thread `t`, which is `th`; a thread spinning on a held lock stays where it is. */
  function Act(m: Shared, w: nat, t: nat, th: Thread, c: Command): Action
    requires ShapedMemory(m, w) && ShapedThread(m.n, w, th)
  {
    match th
    case Idle => Action(Started(w, c), Nothing, [])
    case Busy(job, op, stage) =>
      match stage
      case Begin => Action(Busy(job, op, Enter), Nothing, [Call(t, job, op)])
      case Enter =>
        if op.Push? then
          if m.inLock == None then Action(Busy(job, op, PushNext), LockIn, []) else Action(th, Nothing, [])
        else
          if m.outLock == None then Action(Busy(job, op, PopNext), LockOut, []) else Action(th, Nothing, [])
      case PushNext => Action(Busy(job, op, PushCheck(Succ(m.n, m.wr))), Nothing, [])
      case PushCheck(tmp) =>
        if tmp == m.rd then Action(Busy(job, op, Leave(Full)), Nothing, [Take(t, job, op, Full)])
        else Action(Busy(job, op, PushDest(tmp)), Nothing, [])
      case PushDest(tmp) => Action(Busy(job, op, PushCopy(tmp, m.wr, 0)), Nothing, [])
      case PushCopy(tmp, dest, k) =>
        if k == w then Action(Busy(job, op, PushPublish(tmp)), Nothing, [])
        else Action(Busy(job, op, PushCopy(tmp, dest, k + 1)), StoreWord(dest, k, op.item[k]), [])
      case PushPublish(tmp) =>
        Action(Busy(job, op, Leave(Pushed)), SetWr(tmp), [Take(t, job, op, Pushed)])
      case PopNext => Action(Busy(job, op, PopCheck(Succ(m.n, m.rd))), Nothing, [])
      case PopCheck(tmp) =>
        if tmp == m.wr then Action(Busy(job, op, Leave(Empty)), Nothing, [Take(t, job, op, Empty)])
        else Action(Busy(job, op, PopAdvance(tmp)), Nothing, [])
      case PopAdvance(tmp) =>
        // the history records the whole chunk at the instant rd moves; what returns is what is copied later
        Action(Busy(job, op, PopSource), SetRd(tmp), [Take(t, job, op, Popped(m.mem[tmp]))])
      case PopSource => Action(Busy(job, op, PopCopy(m.rd, [])), Nothing, [])
      case PopCopy(src, buf) =>
        if |buf| == w then Action(Busy(job, op, Leave(Popped(buf))), Nothing, [])
        else Action(Busy(job, op, PopCopy(src, buf + [m.mem[src][|buf|]])), Nothing, [])
      case Leave(out) =>
        Action(Finished(job, op, out), if op.Push? then UnlockIn else UnlockOut, [Return(t, job, op, out)])
  }

  /** A write addresses this memory. */
  predicate ShapedWrite(n: nat, w: nat, a: Write) {
    match a
    case StoreWord(dest, k, _) => dest < n && k < w
    case SetWr(i) => i < n
    case SetRd(i) => i < n
    case _ => true
  }

  function Perform(m: Shared, w: nat, t: nat, a: Write): (m': Shared)
    requires ShapedMemory(m, w) && ShapedWrite(m.n, w, a)
    ensures ShapedMemory(m', w) && m'.n == m.n
  {
    match a
    case Nothing => m
    case LockIn => m.(inLock := Some(t))
    case UnlockIn => m.(inLock := None)
    case LockOut => m.(outLock := Some(t))
    case UnlockOut => m.(outLock := None)
    case StoreWord(dest, k, word) => m.(mem := m.mem[dest := m.mem[dest][k := word]])
    case SetWr(i) => m.(wr := i)
    case SetRd(i) => m.(rd := i)
  }

  lemma ActShaped(m: Shared, w: nat, t: nat, th: Thread, c: Command)
    requires ShapedMemory(m, w) && ShapedThread(m.n, w, th)
    ensures ShapedThread(m.n, w, Act(m, w, t, th, c).thread)
    ensures ShapedWrite(m.n, w, Act(m, w, t, th, c).write)
  {
  }

  function Step(s: System, mv: Move): (r: System)
    requires Shaped(s)
    ensures Shaped(r) && r.shared.n == s.shared.n && r.w == s.w && |r.threads| == |s.threads|
  {
    if mv.tid >= |s.threads| then s
    else
      ActShaped(s.shared, s.w, mv.tid, s.threads[mv.tid], mv.command);
      var a := Act(s.shared, s.w, mv.tid, s.threads[mv.tid], mv.command);
      System(Perform(s.shared, s.w, mv.tid, a.write), s.w, s.threads[mv.tid := a.thread], s.history + a.events)
  }

  /** The state after a schedule of moves. */
  function Run(s: System, moves: seq<Move>): (r: System)
    requires Shaped(s)
    ensures Shaped(r) && r.shared.n == s.shared.n && r.w == s.w && |r.threads| == |s.threads|
  {
    if moves == [] then s else Step(Run(s, moves[..|moves| - 1]), moves[|moves| - 1])
  }
}
