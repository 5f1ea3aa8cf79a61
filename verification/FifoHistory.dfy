/** Histories of the two-lock FIFO and the atomic bounded queue they are measured against. */
module FifoHistory {
  import opened Common

  /** One word of a record; a record is copied word by word. */
  type Word = int
  type Item = seq<Word>

  datatype Op = Push(item: Item) | Pop

  /** On whose behalf an operation runs: called on its own, or inside the retry loop of AddLog or of Update for
      `item`. Update pops into the batch it is pushing: `stored` says that `item` is a record it popped. */
  datatype Job = Once | Adding(item: Item) | Updating(item: Item, stored: bool)

  datatype Outcome = Pushed | Full | Popped(item: Item) | Empty

  /** `Take` marks the instant an operation takes effect: the write of its own index when it succeeds,
      the read of the other side's index when it fails. */
  datatype Event =
    | Call(tid: nat, job: Job, op: Op)
    | Take(tid: nat, job: Job, op: Op, out: Outcome)
    | Return(tid: nat, job: Job, op: Op, out: Outcome)

  type History = seq<Event>

  // ---------- The atomic queue ----------

  /** What an atomic queue holding `q`, with room for `cap` records, answers to `op`. */
  function Answer(cap: nat, q: seq<Item>, op: Op): Outcome {
    match op
    case Push(_) => if |q| < cap then Pushed else Full
    case Pop => if q == [] then Empty else Popped(q[0])
  }

  /** What the atomic queue holds afterwards. */
  function After(cap: nat, q: seq<Item>, op: Op): seq<Item> {
    match op
    case Push(x) => if |q| < cap then q + [x] else q
    case Pop => if q == [] then q else q[1..]
  }

  /** The content of the atomic queue after the Take events of `h`, or None
      when some Take carries an answer the atomic queue would not give. */
  function Replay(cap: nat, h: History): (r: Option<seq<Item>>)
    ensures r.Some? ==> |r.value| <= cap
  {
    if h == [] then Some([])
    else
      match Replay(cap, h[..|h| - 1])
      case None => None
      case Some(q) =>
        match h[|h| - 1]
        case Take(_, _, op, out) => if Answer(cap, q, op) == out then Some(After(cap, q, op)) else None
        case _ => Some(q)
  }

  // ---------- One thread's view ----------

  datatype Phase =
    | Free
    | Called(job: Job, op: Op)
    | Took(job: Job, op: Op, out: Outcome)
    | Retry(job: Job, op: Op)
    | Broken

  /** A loop begins with a push of its record. */
  predicate Starts(job: Job, op: Op) {
    match job
    case Once => true
    case Adding(x) => op == Push(x)
    case Updating(x, stored) => op == Push(x) && !stored
  }

  /** What a loop goes on with after its pop: AddLog drops what it popped, Update takes it for its batch. */
  function AfterPop(job: Job, out: Outcome): Job {
    if job.Updating? && out.Popped? then Updating(out.item, true) else job
  }

  /** Where a thread stands once an operation has returned. */
  function Afterwards(job: Job, op: Op, out: Outcome): Phase {
    if job == Once then Free
    else if op == Pop then Retry(AfterPop(job, out), Push(AfterPop(job, out).item))
    else if out == Full then Retry(job, Pop)
    else Free
  }

  /** A thread alternates Call, Take and Return of one operation with one outcome. Inside a retry loop a push
      that found the queue full is followed by a pop, and that pop by a push of the loop's record. */
  function NextPhase(p: Phase, e: Event): Phase {
    match (p, e)
    case (Free, Call(_, job, op)) =>
      if Starts(job, op) then Called(job, op) else Broken
    case (Retry(again, next), Call(_, job, op)) =>
      if job == again && op == next then Called(job, op) else Broken
    case (Called(job, op), Take(_, job', op', out)) =>
      if job == job' && op == op' then Took(job, op, out) else Broken
    case (Took(job, op, out), Return(_, job', op', out')) =>
      if job == job' && op == op' && out == out' then Afterwards(job, op, out) else Broken
    case _ => Broken
  }

  function PhaseOf(h: History, t: nat): Phase {
    if h == [] then Free
    else
      var p := PhaseOf(h[..|h| - 1], t);
      if h[|h| - 1].tid == t then NextPhase(p, h[|h| - 1]) else p
  }

  /** Inside a loop only pops and pushes of the loop's record happen. */
  predicate InLoop(p: Phase) {
    match p
    case Called(job, op) => job == Once || op == Pop || op == Push(job.item)
    case Took(job, op, _) => job == Once || op == Pop || op == Push(job.item)
    case Retry(job, op) => job != Once && (op == Pop || op == Push(job.item))
    case _ => true
  }

  lemma {:induction false} LoopsStay(h: History, t: nat)
    ensures InLoop(PhaseOf(h, t))
  {
    if h != [] {
      LoopsStay(h[..|h| - 1], t);
    }
  }

  /** A linearizable history of a queue with room for `cap`: each thread's operations take effect once,
      between their call and their return, with the outcome they return, and the effects taken in
      order are a run of the atomic queue. */
  ghost predicate Linearizable(cap: nat, h: History) {
    && Replay(cap, h).Some?
    && forall t: nat :: PhaseOf(h, t) != Broken
  }

  /** The same holds of every earlier moment. */
  lemma {:induction false} LinearizablePrefix(cap: nat, h: History, i: nat)
    requires Linearizable(cap, h) && i <= |h|
    ensures Linearizable(cap, h[..i])
    decreases |h| - i
  {
    if i < |h| {
      LinearizablePrefix(cap, h, i + 1);
      assert h[..i + 1][..i] == h[..i];
      forall t: nat ensures PhaseOf(h[..i], t) != Broken {
        assert PhaseOf(h[..i + 1], t) != Broken;
      }
    } else {
      assert h[..i] == h;
    }
  }

  lemma ExtendReplay(cap: nat, h: History, e: Event)
    ensures Replay(cap, h + [e]) ==
            match Replay(cap, h)
            case None => None
            case Some(q) => if !e.Take? then Some(q)
                            else if Answer(cap, q, e.op) == e.out then Some(After(cap, q, e.op)) else None
  {
  }

  lemma ExtendPhase(h: History, e: Event, t: nat)
    ensures PhaseOf(h + [e], t) == if e.tid == t then NextPhase(PhaseOf(h, t), e) else PhaseOf(h, t)
  {
  }
}
