/** CTraceGroup::AddTrace by any number of threads: a chunk is allocated under the lock; after the lock is
    released the entry is stamped and copied into the chunk word by word, and nothing stops a later allocation
    from coming round to the same chunk. */
module TraceSlots {
  import opened Common
  import opened Ring

  type Entry = seq<int>

  /** A writer, with the number its allocation has in lock order. */
  datatype Writer =
    | Idle
    | Wanting                                                   // spinning on the lock
    | Allocating                                                // wr := (wr + 1) % n
    | Locating(num: nat)                                        // ptr := chunk at wr
    | Releasing(num: nat, ptr: nat)                             // unlock
    | Stamping(num: nat, ptr: nat)                              // read the clock, make up the entry
    | Copying(entry: Entry, num: nat, ptr: nat, k: nat)         // copy word k

  datatype Pool = Pool(
    n: nat,
    w: nat,
    mem: seq<Entry>,
    wr: nat,
    lock: Option<nat>,
    writers: seq<Writer>,
    issued: seq<Option<Entry>>)   // the entry of each allocation in lock order, once it is made up

  /** One scheduling decision; `entry` is what the writer makes up if this is its Stamping step. */
  datatype Move = Move(tid: nat, entry: Entry)

  predicate Initial(s: Pool) {
    && s.n >= 2 && |s.mem| == s.n && (forall i :: 0 <= i < s.n ==> |s.mem[i]| == s.w)
    && s.wr == 1 && s.lock == None && s.issued == []
    && forall t :: 0 <= t < |s.writers| ==> s.writers[t] == Idle
  }

  predicate ShapedWriter(s: Pool, x: Writer) {
    match x
    case Releasing(num, ptr) => ptr < s.n
    case Stamping(num, ptr) => ptr < s.n
    case Copying(e, num, ptr, k) => |e| == s.w && ptr < s.n && k <= s.w
    case _ => true
  }

  predicate Shaped(s: Pool) {
    && s.n >= 2 && |s.mem| == s.n && s.wr < s.n
    && (forall i :: 0 <= i < s.n ==> |s.mem[i]| == s.w)
    && forall t :: 0 <= t < |s.writers| ==> ShapedWriter(s, s.writers[t])
  }

  function Become(s: Pool, t: nat, x: Writer): Pool
    requires t < |s.writers|
  {
    s.(writers := s.writers[t := x])
  }

  function Step(s: Pool, mv: Move): (r: Pool)
    requires Shaped(s)
    ensures Shaped(r) && r.n == s.n && r.w == s.w && |r.writers| == |s.writers|
  {
    var t := mv.tid;
    if t >= |s.writers| then s
    else
      match s.writers[t]
      case Idle => Become(s, t, Wanting)
      case Wanting => if s.lock == None then Become(s, t, Allocating).(lock := Some(t)) else s
      case Allocating =>
        Become(s, t, Locating(|s.issued|)).(wr := Succ(s.n, s.wr), issued := s.issued + [None])
      case Locating(num) => Become(s, t, Releasing(num, s.wr))
      case Releasing(num, ptr) => Become(s, t, Stamping(num, ptr)).(lock := None)
      case Stamping(num, ptr) =>
        if |mv.entry| != s.w || num >= |s.issued| then s
        else Become(s, t, Copying(mv.entry, num, ptr, 0)).(issued := s.issued[num := Some(mv.entry)])
      case Copying(e, num, ptr, k) =>
        if k == s.w then Become(s, t, Idle)
        else Become(s, t, Copying(e, num, ptr, k + 1)).(mem := s.mem[ptr := s.mem[ptr][k := e[k]]])
  }

  function Run(s: Pool, moves: seq<Move>): (r: Pool)
    requires Shaped(s)
    ensures Shaped(r) && r.n == s.n && r.w == s.w && |r.writers| == |s.writers|
  {
    if moves == [] then s else Step(Run(s, moves[..|moves| - 1]), moves[|moves| - 1])
  }

  /** The writer has been given a chunk and has not finished with it. */
  predicate Owns(x: Writer) {
    x.Locating? || x.Releasing? || x.Stamping? || x.Copying?
  }

  predicate WriterInv(s: Pool, t: nat, x: Writer) {
    && ((x.Allocating? || x.Locating? || x.Releasing?) <==> s.lock == Some(t))
    && (Owns(x) ==> x.num < |s.issued|)
    && (x.Copying? ==> s.issued[x.num] == Some(x.entry))
    && (x.Locating? ==> x.num + 1 == |s.issued|)
    && (x.Releasing? || x.Stamping? || x.Copying? ==> s.n >= 2 && x.ptr == ChunkOf(s.n, x.num))
  }

  /** Holds in every state of every schedule. */
  ghost predicate Inv(s: Pool) {
    && Shaped(s)
    && s.wr == WriteIndexAfter(s.n, |s.issued|)
    && (forall t :: 0 <= t < |s.writers| ==> WriterInv(s, t, s.writers[t]))
    && (forall t, u :: 0 <= t < u < |s.writers| && Owns(s.writers[t]) && Owns(s.writers[u]) ==>
         s.writers[t].num != s.writers[u].num)
  }

  lemma StepKeepsWriter(s: Pool, mv: Move, t: nat)
    requires Inv(s) && t < |s.writers|
    ensures WriterInv(Step(s, mv), t, Step(s, mv).writers[t])
  {
    assert WriterInv(s, t, s.writers[t]);
    if mv.tid < |s.writers| {
      assert WriterInv(s, mv.tid, s.writers[mv.tid]);
    }
  }

  lemma {:induction false} StepInv(s: Pool, mv: Move)
    requires Inv(s)
    ensures Inv(Step(s, mv))
  {
    var r := Step(s, mv);
    forall t | 0 <= t < |s.writers| ensures WriterInv(r, t, r.writers[t]) {
      StepKeepsWriter(s, mv, t);
    }
    assert mv.tid < |s.writers| ==> WriterInv(s, mv.tid, s.writers[mv.tid]);
    forall t | 0 <= t < |s.writers| && Owns(r.writers[t])
      ensures (Owns(s.writers[t]) && r.writers[t].num == s.writers[t].num) ||
              (t == mv.tid && s.writers[t].Allocating? && r.writers[t].num == |s.issued|)
    {
    }
    forall t | 0 <= t < |s.writers| ensures Owns(s.writers[t]) ==> s.writers[t].num < |s.issued| {
      assert WriterInv(s, t, s.writers[t]);
    }
  }

  lemma {:induction false} Reachable(s: Pool, moves: seq<Move>)
    requires Initial(s)
    ensures Shaped(s) && Inv(Run(s, moves))
  {
    if moves != [] {
      Reachable(s, moves[..|moves| - 1]);
      StepInv(Run(s, moves[..|moves| - 1]), moves[|moves| - 1]);
    }
  }

  /** Fewer than n allocations happened since writer `x` got its chunk. */
  predicate NotLapped(s: Pool, x: Writer) {
    Owns(x) ==> |s.issued| <= x.num + s.n
  }

  /** In every schedule, a writer's chunk has been handed to no later allocation exactly as long as
      fewer than n allocations followed its own. */
  lemma {:induction false} OwnershipIsExclusiveIff(s: Pool, moves: seq<Move>, t: nat)
    requires Initial(s) && t < |s.writers|
    ensures Shaped(s)
    ensures var r := Run(s, moves);
            var x := r.writers[t];
            Owns(x) ==>
              (NotLapped(r, x) <==>
               forall b: nat :: x.num < b < |r.issued| ==> ChunkOf(r.n, b) != ChunkOf(r.n, x.num))
  {
    Reachable(s, moves);
    var r := Run(s, moves);
    var x := r.writers[t];
    if Owns(x) {
      if NotLapped(r, x) {
        forall b: nat | x.num < b < |r.issued| ensures ChunkOf(r.n, b) != ChunkOf(r.n, x.num) {
          ChunksRepeatByLaps(r.n, x.num, b);
        }
      } else {
        ChunksRepeatByLaps(r.n, x.num, x.num + r.n);
      }
    }
  }

  ghost predicate NoLaps(s: Pool) {
    forall t :: 0 <= t < |s.writers| ==> NotLapped(s, s.writers[t])
  }

  /** No writer is lapped at any moment of the schedule. */
  ghost predicate LapFree(s: Pool, moves: seq<Move>)
    requires Shaped(s)
  {
    NoLaps(Run(s, moves)) && (moves != [] ==> LapFree(s, moves[..|moves| - 1]))
  }

  ghost predicate Unfinished(s: Pool, a: nat) {
    exists t :: 0 <= t < |s.writers| && Owns(s.writers[t]) && s.writers[t].num == a
  }

  /** What writer `x` has copied so far is in its chunk. */
  predicate CopyInPlace(s: Pool, x: Writer)
    requires Shaped(s) && ShapedWriter(s, x)
  {
    x.Copying? ==> s.mem[x.ptr][..x.k] == x.entry[..x.k]
  }

  ghost predicate Whole(s: Pool, a: nat)
    requires Shaped(s) && a < |s.issued|
  {
    s.issued[a] == Some(s.mem[ChunkOf(s.n, a)])
  }

  /** Every writer's partial copy is in place, and every finished entry of the last n is whole. */
  ghost predicate Intact(s: Pool)
    requires Shaped(s)
  {
    && (forall t :: 0 <= t < |s.writers| ==> CopyInPlace(s, s.writers[t]))
    && (forall a: nat :: |s.issued| - s.n <= a < |s.issued| && !Unfinished(s, a) ==> Whole(s, a))
  }

  lemma Apart(n: nat, a: nat, b: nat)
    requires n >= 2 && a != b && a < b + n && b < a + n
    ensures ChunkOf(n, a) != ChunkOf(n, b)
  {
    if a < b {
      ChunksRepeatByLaps(n, a, b);
    } else {
      ChunksRepeatByLaps(n, b, a);
    }
  }

  /** A step of one writer leaves the copies of the others in place. */
  lemma OthersCopyInPlace(s: Pool, mv: Move, u: nat)
    requires Inv(s) && NoLaps(s) && u < |s.writers| && mv.tid < |s.writers| && u != mv.tid
    requires CopyInPlace(s, s.writers[u])
    ensures CopyInPlace(Step(s, mv), Step(s, mv).writers[u])
  {
    var x, y := s.writers[mv.tid], s.writers[u];
    assert WriterInv(s, mv.tid, x) && WriterInv(s, u, y);
    assert NotLapped(s, x) && NotLapped(s, y);
    assert Step(s, mv).writers[u] == y;
    if x.Copying? && y.Copying? {
      Apart(s.n, x.num, y.num);
    }
  }

  lemma OwnCopyInPlace(s: Pool, mv: Move)
    requires Inv(s) && mv.tid < |s.writers|
    requires CopyInPlace(s, s.writers[mv.tid])
    ensures CopyInPlace(Step(s, mv), Step(s, mv).writers[mv.tid])
  {
  }

  /** An allocation is unfinished after a step unless it was finished before or this step finished it. */
  lemma UnfinishedStep(s: Pool, mv: Move, a: nat)
    requires Inv(s) && mv.tid < |s.writers| && Unfinished(s, a) && !Unfinished(Step(s, mv), a)
    ensures var x := s.writers[mv.tid]; x.Copying? && x.k == s.w && x.num == a
  {
    var u :| 0 <= u < |s.writers| && Owns(s.writers[u]) && s.writers[u].num == a;
    var y := Step(s, mv).writers[u];
    assert !(Owns(y) && y.num == a);
  }

  lemma NewIsUnfinished(s: Pool, mv: Move)
    requires Shaped(s) && mv.tid < |s.writers| && s.writers[mv.tid].Allocating?
    ensures Unfinished(Step(s, mv), |s.issued|)
  {
    var y := Step(s, mv).writers[mv.tid];
    assert Owns(y) && y.num == |s.issued|;
  }

  lemma WholeStep(s: Pool, mv: Move, a: nat)
    requires Inv(s) && NoLaps(s) && Intact(s) && mv.tid < |s.writers|
    requires |Step(s, mv).issued| - s.n <= a < |Step(s, mv).issued| && !Unfinished(Step(s, mv), a)
    ensures Whole(Step(s, mv), a)
  {
    var t, x, r := mv.tid, s.writers[mv.tid], Step(s, mv);
    assert WriterInv(s, t, x) && CopyInPlace(s, x) && NotLapped(s, x);
    if x.Allocating? {
      NewIsUnfinished(s, mv);
    }
    if Unfinished(s, a) {
      UnfinishedStep(s, mv, a);
      assert s.mem[x.ptr] == s.mem[x.ptr][..x.k] && x.entry == x.entry[..x.k];
    } else {
      assert Whole(s, a);
      if x.Copying? {
        assert x.num != a by { assert Owns(s.writers[t]); }
        Apart(s.n, x.num, a);
      }
    }
  }

  lemma IntactStep(s: Pool, mv: Move)
    requires Inv(s) && NoLaps(s) && Intact(s)
    ensures Intact(Step(s, mv))
  {
    var r := Step(s, mv);
    if mv.tid < |s.writers| {
      forall u | 0 <= u < |r.writers| ensures CopyInPlace(r, r.writers[u]) {
        if u == mv.tid {
          OwnCopyInPlace(s, mv);
        } else {
          OthersCopyInPlace(s, mv, u);
        }
      }
      forall a: nat | |r.issued| - r.n <= a < |r.issued| && !Unfinished(r, a) ensures Whole(r, a) {
        WholeStep(s, mv, a);
      }
    }
  }

  lemma {:induction false} LapFreeIntact(s: Pool, moves: seq<Move>)
    requires Initial(s) && LapFree(s, moves)
    ensures Intact(Run(s, moves))
  {
    if moves != [] {
      var k := |moves| - 1;
      assert LapFree(s, moves[..k]) && NoLaps(Run(s, moves[..k]));
      LapFreeIntact(s, moves[..k]);
      Reachable(s, moves[..k]);
      IntactStep(Run(s, moves[..k]), moves[k]);
      hide LapFree, NoLaps, Inv, Intact;
    }
  }

  predicate AllIdle(s: Pool) {
    forall t :: 0 <= t < |s.writers| ==> s.writers[t] == Idle
  }

  /** The ring holds the last n entries by lock order. */
  ghost predicate LastAreWhole(s: Pool)
    requires Shaped(s)
  {
    forall a: nat :: |s.issued| - s.n <= a < |s.issued| ==> Whole(s, a)
  }

  /** When no writer was ever lapped and all have finished, the ring is exactly the last n entries by
      lock order, whatever the interleaving of the copies. */
  lemma {:induction false} RingKeepsLastEntries(s: Pool, moves: seq<Move>)
    requires Initial(s) && LapFree(s, moves) && AllIdle(Run(s, moves))
    ensures LastAreWhole(Run(s, moves))
  {
    LapFreeIntact(s, moves);
    var r := Run(s, moves);
    forall a: nat | |r.issued| - r.n <= a < |r.issued| ensures !Unfinished(r, a) {
    }
  }

  // ---------- What a lapped writer does ----------

  lemma {:induction false} RunConcat(s: Pool, a: seq<Move>, b: seq<Move>)
    requires Shaped(s)
    ensures Run(s, a + b) == Run(Run(s, a), b)
  {
    if b == [] {
      assert a + b == a;
    } else {
      assert (a + b)[..|a + b| - 1] == a + b[..|b| - 1];
      RunConcat(s, a, b[..|b| - 1]);
    }
  }

  lemma RunOne(s: Pool, mv: Move)
    requires Shaped(s)
    ensures Run(s, [mv]) == Step(s, mv)
  {
    assert Run(s, []) == s;
  }

  /** The schedule takes the pool from `s` to `r`. */
  ghost predicate Reaches(s: Pool, moves: seq<Move>, r: Pool) {
    Shaped(s) && Run(s, moves) == r
  }

  lemma ThenReaches(s: Pool, a: seq<Move>, r: Pool, b: seq<Move>, r': Pool)
    requires Reaches(s, a, r) && Reaches(r, b, r')
    ensures Reaches(s, a + b, r')
  {
    RunConcat(s, a, b);
  }

  lemma StepReaches(s: Pool, mv: Move)
    requires Shaped(s)
    ensures Reaches(s, [mv], Step(s, mv))
  {
    RunOne(s, mv);
  }

  /** `m` with its words from `i` up to `j` those of `e`. */
  function Overlaid(m: Entry, e: Entry, i: nat, j: nat): (r: Entry)
    requires i <= j <= |m| == |e|
    ensures |r| == |m|
  {
    m[..i] + e[i..j] + m[j..]
  }

  /** The pool once writer `t` has copied up to word `j`. */
  function Copied(s: Pool, t: nat, j: nat): Pool
    requires Shaped(s) && t < |s.writers| && s.writers[t].Copying? && s.writers[t].k <= j <= s.w
  {
    var x := s.writers[t];
    Become(s, t, x.(k := j)).(mem := s.mem[x.ptr := Overlaid(s.mem[x.ptr], x.entry, x.k, j)])
  }

  lemma CopiedNone(s: Pool, t: nat)
    requires Shaped(s) && t < |s.writers| && s.writers[t].Copying?
    ensures Copied(s, t, s.writers[t].k) == s
  {
    var x := s.writers[t];
    assert Overlaid(s.mem[x.ptr], x.entry, x.k, x.k) == s.mem[x.ptr];
  }

  lemma CopiedNext(s: Pool, mv: Move, j: nat)
    requires Shaped(s) && mv.tid < |s.writers| && s.writers[mv.tid].Copying? && s.writers[mv.tid].k <= j < s.w
    ensures Reaches(Copied(s, mv.tid, j), [mv], Copied(s, mv.tid, j + 1))
  {
    var x := s.writers[mv.tid];
    var m := s.mem[x.ptr];
    assert Overlaid(m, x.entry, x.k, j)[j := x.entry[j]] == Overlaid(m, x.entry, x.k, j + 1);
    StepReaches(Copied(s, mv.tid, j), mv);
  }

  lemma {:induction false} CopiesWords(s: Pool, mv: Move, j: nat) returns (moves: seq<Move>)
    requires Shaped(s) && mv.tid < |s.writers| && s.writers[mv.tid].Copying? && s.writers[mv.tid].k <= j <= s.w
    ensures Reaches(s, moves, Copied(s, mv.tid, j))
    decreases j
  {
    if j == s.writers[mv.tid].k {
      moves := [];
      CopiedNone(s, mv.tid);
    } else {
      hide Reaches, Copied, Shaped, Run;
      moves := CopiesWords(s, mv, j - 1);
      CopiedNext(s, mv, j - 1);
      ThenReaches(s, moves, Copied(s, mv.tid, j - 1), [mv], Copied(s, mv.tid, j));
      moves := moves + [mv];
    }
  }

  lemma TwoMoves(s: Pool, mv: Move)
    requires Shaped(s)
    ensures Reaches(s, [mv, mv], Step(Step(s, mv), mv))
  {
    StepReaches(s, mv);
    StepReaches(Step(s, mv), mv);
    ThenReaches(s, [mv], Step(s, mv), [mv], Step(Step(s, mv), mv));
    assert [mv] + [mv] == [mv, mv];
  }

  /** The pool once writer `t` has taken the next chunk and made up its entry. */
  function Taken(s: Pool, t: nat, e: Entry): Pool
    requires s.n >= 2 && s.wr < s.n && t < |s.writers|
  {
    Become(s, t, Copying(e, |s.issued|, Succ(s.n, s.wr), 0))
    .(wr := Succ(s.n, s.wr), issued := s.issued + [Some(e)])
  }

  /** An idle writer, scheduled alone, takes the next chunk. */
  lemma TakesChunk(s: Pool, t: nat, e: Entry) returns (moves: seq<Move>)
    requires Shaped(s) && s.lock == None && t < |s.writers| && s.writers[t] == Idle && |e| == s.w
    ensures Reaches(s, moves, Taken(s, t, e))
  {
    var mv, num, c := Move(t, e), |s.issued|, Succ(s.n, s.wr);
    var s2, s4, s6 := Step(Step(s, mv), mv), Step(Step(Step(Step(s, mv), mv), mv), mv), Taken(s, t, e);
    TwoMoves(s, mv);
    assert s2 == Become(s, t, Allocating).(lock := Some(t));
    TwoMoves(s2, mv);
    assert s4 == Become(s, t, Releasing(num, c)).(lock := Some(t), wr := c, issued := s.issued + [None]);
    TwoMoves(s4, mv);
    assert (s.issued + [None])[num := Some(e)] == s.issued + [Some(e)];
    assert Step(Step(s4, mv), mv) == s6;
    hide Reaches, Step, Taken;
    ThenReaches(s, [mv, mv], s2, [mv, mv], s4);
    ThenReaches(s, [mv, mv] + [mv, mv], s4, [mv, mv], s6);
    moves := [mv, mv] + [mv, mv] + [mv, mv];
  }

  /** The pool once writer `t`, in the midst of copying, has finished. */
  function Finished(s: Pool, t: nat): Pool
    requires Shaped(s) && t < |s.writers| && s.writers[t].Copying?
  {
    var x := s.writers[t];
    Become(s, t, Idle).(mem := s.mem[x.ptr := s.mem[x.ptr][..x.k] + x.entry[x.k..]])
  }

  lemma LastMove(s: Pool, mv: Move)
    requires Shaped(s) && mv.tid < |s.writers| && s.writers[mv.tid].Copying?
    ensures Reaches(Copied(s, mv.tid, s.w), [mv], Finished(s, mv.tid))
  {
    var x := s.writers[mv.tid];
    assert Overlaid(s.mem[x.ptr], x.entry, x.k, s.w) == s.mem[x.ptr][..x.k] + x.entry[x.k..];
    StepReaches(Copied(s, mv.tid, s.w), mv);
  }

  lemma Finishes(s: Pool, mv: Move) returns (moves: seq<Move>)
    requires Shaped(s) && mv.tid < |s.writers| && s.writers[mv.tid].Copying?
    ensures Reaches(s, moves, Finished(s, mv.tid))
  {
    hide Reaches, Copied, Finished;
    moves := CopiesWords(s, mv, s.w);
    LastMove(s, mv);
    ThenReaches(s, moves, Copied(s, mv.tid, s.w), [mv], Finished(s, mv.tid));
    moves := moves + [mv];
  }

  /** The pool once entry `e` has been left in the next chunk. */
  function Deposited(s: Pool, e: Entry): Pool
    requires s.n >= 2 && s.wr < s.n && |s.mem| == s.n
  {
    s.(wr := Succ(s.n, s.wr), issued := s.issued + [Some(e)], mem := s.mem[Succ(s.n, s.wr) := e])
  }

  /** A writer that is not interrupted leaves its entry in the next chunk. */
  lemma Deposits(s: Pool, t: nat, e: Entry) returns (moves: seq<Move>)
    requires Shaped(s) && s.lock == None && t < |s.writers| && s.writers[t] == Idle && |e| == s.w
    ensures Reaches(s, moves, Deposited(s, e))
  {
    var r := Taken(s, t, e);
    moves := TakesChunk(s, t, e);
    assert Shaped(r);
    var more := Finishes(r, Move(t, e));
    assert r.mem[Succ(s.n, s.wr)][..0] + e[0..] == e;
    assert Finished(r, t).writers == s.writers;
    assert Finished(r, t) == Deposited(s, e);
    hide Reaches, Finished, Deposited, Taken;
    ThenReaches(s, moves, r, more, Deposited(s, e));
    moves := moves + more;
  }

  function DepositedAll(s: Pool, es: seq<Entry>): (r: Pool)
    requires Shaped(s) && forall i :: 0 <= i < |es| ==> |es[i]| == s.w
    ensures Shaped(r) && r.n == s.n && r.w == s.w && r.writers == s.writers && r.lock == s.lock
  {
    if es == [] then s else Deposited(DepositedAll(s, es[..|es| - 1]), es[|es| - 1])
  }

  lemma {:induction false} DepositsAll(s: Pool, t: nat, es: seq<Entry>) returns (moves: seq<Move>)
    requires Shaped(s) && s.lock == None && t < |s.writers| && s.writers[t] == Idle
    requires forall i :: 0 <= i < |es| ==> |es[i]| == s.w
    ensures Reaches(s, moves, DepositedAll(s, es))
  {
    if es == [] {
      moves := [];
    } else {
      var k := |es| - 1;
      hide Reaches, Deposited;
      moves := DepositsAll(s, t, es[..k]);
      var r := DepositedAll(s, es[..k]);
      var more := Deposits(r, t, es[k]);
      ThenReaches(s, moves, r, more, Deposited(r, es[k]));
      moves := moves + more;
    }
  }

  /** The entries are issued in order, and the last one is in the last chunk. */
  lemma {:induction false} DepositedAllIs(s: Pool, es: seq<Entry>)
    requires Shaped(s) && s.wr == WriteIndexAfter(s.n, |s.issued|)
    requires forall i :: 0 <= i < |es| ==> |es[i]| == s.w
    ensures var r, k := DepositedAll(s, es), |s.issued| + |es|;
            && r.wr == WriteIndexAfter(s.n, k)
            && |r.issued| == k && (forall i :: 0 <= i < |s.issued| ==> r.issued[i] == s.issued[i])
            && (forall i :: 0 <= i < |es| ==> r.issued[|s.issued| + i] == Some(es[i]))
            && (es != [] ==> r.mem[ChunkOf(s.n, k - 1)] == es[|es| - 1])
  {
    if es != [] {
      DepositedAllIs(s, es[..|es| - 1]);
    }
  }

  /** Writer 0 is interrupted before its word `k`, writer 1 leaves `others`, writer 0 finishes. */
  function Lapped(s: Pool, first: Entry, others: seq<Entry>, k: nat): (r: Pool)
    requires Initial(s) && |s.writers| >= 2 && k <= s.w && |first| == s.w
    requires forall i :: 0 <= i < |others| ==> |others[i]| == s.w
  {
    Finished(DepositedAll(Copied(Taken(s, 0, first), 0, k), others), 0)
  }

  lemma LappedIsReached(s: Pool, first: Entry, others: seq<Entry>, k: nat) returns (moves: seq<Move>)
    requires Initial(s) && |s.writers| >= 2 && k <= s.w && |first| == s.w
    requires forall i :: 0 <= i < |others| ==> |others[i]| == s.w
    ensures Reaches(s, moves, Lapped(s, first, others, k))
  {
    var s1 := Taken(s, 0, first);
    var s2 := Copied(s1, 0, k);
    var s3 := DepositedAll(s2, others);
    assert Shaped(s1) && Shaped(s2);
    assert s3.writers[0].Copying? && s2.writers[1] == Idle && s2.lock == None;
    var s4 := Finished(s3, 0);
    hide Reaches, Step, Run, Taken, Copied, DepositedAll, Finished;
    var a := TakesChunk(s, 0, first);
    var b := CopiesWords(s1, Move(0, first), k);
    ThenReaches(s, a, s1, b, s2);
    var c := DepositsAll(s2, 1, others);
    ThenReaches(s, a + b, s2, c, s3);
    var d := Finishes(s3, Move(0, first));
    ThenReaches(s, a + b + c, s3, d, s4);
    moves := a + b + c + d;
  }

  /** `s` with writer 0 interrupted before word `k` of the entry `first` it began with. */
  predicate Interrupted(s: Pool, first: Entry, k: nat) {
    && Shaped(s) && |s.writers| >= 2
    && s.issued == [Some(first)] && s.wr == ChunkOf(s.n, 0) && |first| == s.w && k <= s.w
    && s.writers[0] == Copying(first, 0, ChunkOf(s.n, 0), k)
  }

  lemma InterruptedAt(s: Pool, first: Entry, k: nat)
    requires Initial(s) && |s.writers| >= 2 && k <= s.w && |first| == s.w
    ensures var r := Copied(Taken(s, 0, first), 0, k);
            r.n == s.n && r.w == s.w && Interrupted(r, first, k) && r.writers[0 := Idle] == s.writers
  {
    assert WriteIndexAfter(s.n, 0) == 1;
  }

  lemma LapTears(s: Pool, first: Entry, others: seq<Entry>, k: nat)
    requires Interrupted(s, first, k)
    requires |others| == s.n && forall i :: 0 <= i < s.n ==> |others[i]| == s.w
    ensures var r := Finished(DepositedAll(s, others), 0);
            && r.writers == s.writers[0 := Idle] && |r.issued| == s.n + 1
            && r.issued[0] == Some(first) && (forall i :: 0 <= i < s.n ==> r.issued[i + 1] == Some(others[i]))
            && r.mem[ChunkOf(s.n, s.n)] == others[s.n - 1][..k] + first[k..]
  {
    DepositedAllIs(s, others);
    ChunksRepeatByLaps(s.n, 0, s.n);
    hide DepositedAll, ChunkOf, WriteIndexAfter, Shaped;
  }

  /** A writer interrupted in mid-copy and lapped: for every number of chunks, words and point of interruption
      there is a schedule after which every writer has finished and a chunk holds the first words of one entry
      and the last words of another. */
  lemma LappedWriterTears(s: Pool, first: Entry, others: seq<Entry>, k: nat) returns (moves: seq<Move>)
    requires Initial(s) && |s.writers| >= 2 && 0 < k < s.w
    requires |first| == s.w && |others| == s.n && forall i :: 0 <= i < s.n ==> |others[i]| == s.w
    ensures var r := Run(s, moves);
            && r.writers == s.writers && |r.issued| == s.n + 1
            && r.issued[0] == Some(first) && (forall i :: 0 <= i < s.n ==> r.issued[i + 1] == Some(others[i]))
            && r.mem[ChunkOf(s.n, s.n)] == others[s.n - 1][..k] + first[k..]
  {
    moves := LappedIsReached(s, first, others, k);
    InterruptedAt(s, first, k);
    LapTears(Copied(Taken(s, 0, first), 0, k), first, others, k);
    hide Step, Run, Taken, Copied, DepositedAll, Finished, Interrupted;
  }

  // ---------- When every schedule keeps the last entries ----------

  /** A lone writer that has a chunk has the latest. */
  predicate LatestOwned(s: Pool) {
    forall t :: 0 <= t < |s.writers| && Owns(s.writers[t]) ==> s.writers[t].num + 1 == |s.issued|
  }

  lemma {:induction false} LoneWriterOwnsLatest(s: Pool, moves: seq<Move>)
    requires Initial(s) && |s.writers| <= 1
    ensures LatestOwned(Run(s, moves))
  {
    if moves != [] {
      LoneWriterOwnsLatest(s, moves[..|moves| - 1]);
    }
  }

  lemma {:induction false} LoneWriterIsNotLapped(s: Pool, moves: seq<Move>)
    requires Initial(s) && |s.writers| <= 1
    ensures LapFree(s, moves)
  {
    LoneWriterOwnsLatest(s, moves);
    if moves != [] {
      LoneWriterIsNotLapped(s, moves[..|moves| - 1]);
    }
  }

  function Entries(w: nat, word: int): (e: Entry)
    ensures |e| == w && forall i :: 0 <= i < w ==> e[i] == word
  {
    seq(w, _ => word)
  }

  /** With two writers, one interrupted before its first word and lapped leaves its old entry behind. */
  lemma LappedLeavesStale(s: Pool) returns (moves: seq<Move>)
    requires Initial(s) && s.w > 0 && |s.writers| >= 2
    ensures AllIdle(Run(s, moves)) && !LastAreWhole(Run(s, moves))
  {
    var first, others := Entries(s.w, 1), seq(s.n, _ => Entries(s.w, 2));
    moves := LappedIsReached(s, first, others, 0);
    InterruptedAt(s, first, 0);
    LapTears(Copied(Taken(s, 0, first), 0, 0), first, others, 0);
    hide Step, Run, Taken, Copied, DepositedAll, Finished, Interrupted;
    var r := Lapped(s, first, others, 0);
    assert r.mem[ChunkOf(s.n, s.n)][0] == 1 && r.issued[s.n - 1 + 1].value[0] == 2;
    assert !Whole(r, s.n);
  }

  /** The ring holds the last n entries after every schedule whose writers have all finished if and only if there is
      at most one writer. */
  lemma {:induction false} EveryScheduleKeepsLastIff(s: Pool)
    requires Initial(s) && s.w > 0
    ensures Shaped(s)
    ensures (forall moves :: AllIdle(Run(s, moves)) ==> LastAreWhole(Run(s, moves))) <==> |s.writers| <= 1
  {
    if |s.writers| <= 1 {
      forall moves | AllIdle(Run(s, moves)) ensures LastAreWhole(Run(s, moves)) {
        LoneWriterIsNotLapped(s, moves);
        RingKeepsLastEntries(s, moves);
      }
    } else {
      var moves := LappedLeavesStale(s);
    }
  }
}
