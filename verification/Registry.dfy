/** The name-to-handle tables in the shared memory and the registration replay of RT_debug_init. */
module Registry {
  import opened Common
  import opened Profile
  import opened TraceGroups
  import opened LogGroups

  // ---------- One table ----------

  /** A table entry: its name and the data that belongs to it. */
  datatype Named<+T> = Named(name: string, data: T)

  /** The linear search every table starts with. */
  function Find<T>(tbl: seq<Named<T>>, name: string): (r: Option<nat>)
    ensures r.Some? ==> r.value < |tbl| && tbl[r.value].name == name
    ensures r.None? ==> forall i :: 0 <= i < |tbl| ==> tbl[i].name != name
  {
    if tbl == [] then None
    else if tbl[0].name == name then Some(0)
    else
      match Find(tbl[1..], name)
      case None => assert forall i :: 0 < i < |tbl| ==> tbl[i] == tbl[1..][i - 1]; None
      case Some(i) => Some(i + 1)
  }

  /** Return the handle of a known name, or append the name. */
  function Enter<T>(tbl: seq<Named<T>>, name: string, init: T): (seq<Named<T>>, nat) {
    match Find(tbl, name)
    case Some(i) => (tbl, i)
    case None => (tbl + [Named(name, init)], |tbl|)
  }

  /** `b` keeps the names of `a` where they were; the data may have changed. */
  ghost predicate NamesKept<T>(a: seq<Named<T>>, b: seq<Named<T>>) {
    |a| <= |b| && forall i :: 0 <= i < |a| ==> a[i].name == b[i].name
  }

  lemma {:induction false} FindFirst<T>(tbl: seq<Named<T>>, name: string, i: nat)
    requires i < |tbl| && tbl[i].name == name && forall j :: 0 <= j < i ==> tbl[j].name != name
    ensures Find(tbl, name) == Some(i)
  {
    if i > 0 {
      FindFirst(tbl[1..], name, i - 1);
    }
  }

  lemma {:induction false} FindIsFirst<T>(tbl: seq<Named<T>>, name: string, j: nat)
    requires Find(tbl, name).Some? && j < Find(tbl, name).value
    ensures tbl[j].name != name
  {
    if j > 0 {
      FindIsFirst(tbl[1..], name, j - 1);
    }
  }

  /** A handle, once given, is found again whatever was appended and whatever data changed. */
  lemma {:induction false} FoundStays<T>(a: seq<Named<T>>, b: seq<Named<T>>, name: string)
    requires NamesKept(a, b) && Find(a, name).Some?
    ensures Find(b, name) == Find(a, name)
  {
    var i := Find(a, name).value;
    forall j | 0 <= j < i ensures b[j].name != name {
      FindIsFirst(a, name, j);
    }
    FindFirst(b, name, i);
  }

  lemma EnterFinds<T>(tbl: seq<Named<T>>, name: string, init: T)
    ensures var (tbl', h) := Enter(tbl, name, init);
            Find(tbl', name) == Some(h) && NamesKept(tbl, tbl') && |tbl'| <= |tbl| + 1
  {
    if Find(tbl, name).None? {
      FindFirst(tbl + [Named(name, init)], name, |tbl|);
    }
  }

  // ---------- The shared image ----------

  datatype GroupBody = GroupBody(
    logs: seq<LogEntry>,
    slots: seq<TraceSlot>,
    formats: seq<Named<()>>,
    counters: seq<Named<int>>,
    profs: seq<Named<seq<ProfileData>>>)

  type Groups = seq<Named<GroupBody>>

  const DEFAULT_FORMAT := "val0= %llu, val1=%llu, val2= %llu, val3= %llu"

  /** What Init makes of a group: an empty log, a ring of empty slots, the default format, no counters, no profilers. */
  function FreshGroup(): GroupBody {
    GroupBody([], seq(1000, _ => TraceSlot(NO_DATA_IND, ZERO_ENTRY)), [Named(DEFAULT_FORMAT, ())], [], [])
  }

  const MAX_GROUP_NUM: nat := 10
  const NUM_COUNTERS: nat := 20
  const MAX_TRACE_FORMATS: nat := 50
  const PROF_GROUP_MAX: nat := 50

  predicate Fits(gs: Groups) {
    && |gs| <= MAX_GROUP_NUM
    && forall g :: 0 <= g < |gs| ==>
         && |gs[g].data.counters| <= NUM_COUNTERS - 1
         && |gs[g].data.formats| <= MAX_TRACE_FORMATS
         && |gs[g].data.profs| <= PROF_GROUP_MAX
  }

  /** The sizes of the arrays: 10 groups, 19 counters of 20, 50 formats and 50 profilers a group. */
  lemma {:induction false} ArraysHold(gs: Groups)
    ensures Fits(gs) <==>
            && |gs| <= 10
            && forall g :: 0 <= g < |gs| ==>
                 |gs[g].data.counters| <= 19 && |gs[g].data.formats| <= 50 && |gs[g].data.profs| <= 50
  {
  }

  /** One expanded DEF_ macro. `group` is the position of the group's own DEF_GROUP, its enum value. */
  datatype Item =
    | DefGroup(name: string)
    | DefEvent(group: nat, name: string)
    | DefTrace(group: nat, name: string)
    | DefProfile(group: nat, name: string)

  /** Every group is defined before it is used. */
  predicate WellFormed(items: seq<Item>) {
    forall k :: 0 <= k < |items| && !items[k].DefGroup? ==> items[k].group < k && items[items[k].group].DefGroup?
  }

  lemma WellFormedPrefix(items: seq<Item>, k: nat)
    requires WellFormed(items) && k <= |items|
    ensures WellFormed(items[..k])
  {
  }

  /** Perform one registration for the group with handle `gid` (not used by DefGroup). */
  function Register(gs: Groups, it: Item, gid: nat): (Groups, nat)
    requires it.DefGroup? || gid < |gs|
  {
    match it
    case DefGroup(n) => Enter(gs, n, FreshGroup())
    case DefEvent(_, n) =>
      var b := gs[gid].data;
      var (t, h) := Enter(b.counters, n, -1);
      (gs[gid := gs[gid].(data := b.(counters := t))], h)
    case DefTrace(_, n) =>
      var b := gs[gid].data;
      var (t, h) := Enter(b.formats, n, ());
      (gs[gid := gs[gid].(data := b.(formats := t))], h)
    case DefProfile(_, n) =>
      var b := gs[gid].data;
      var (t, h) := Enter(b.profs, n, []);
      (gs[gid := gs[gid].(data := b.(profs := t))], h)
  }

  /** The guards of the four tables: a group, counter or format that is new needs a free entry; for a profiler the
      table must not be larger than its array, whether or not the name is new. */
  predicate Admitted(gs: Groups, it: Item, gid: nat)
    requires it.DefGroup? || gid < |gs|
  {
    match it
    case DefGroup(n) => Find(gs, n).Some? || |gs| < MAX_GROUP_NUM
    case DefEvent(_, n) => Find(gs[gid].data.counters, n).Some? || |gs[gid].data.counters| < NUM_COUNTERS - 1
    case DefTrace(_, n) => Find(gs[gid].data.formats, n).Some? || |gs[gid].data.formats| < MAX_TRACE_FORMATS
    case DefProfile(_, _) => |gs[gid].data.profs| <= PROF_GROUP_MAX
  }

  /** A new profiler beside a full table, which its guard lets through. */
  predicate OneTooMany(gs: Groups, it: Item, gid: nat)
    requires it.DefGroup? || gid < |gs|
  {
    it.DefProfile? && |gs[gid].data.profs| == PROF_GROUP_MAX && Find(gs[gid].data.profs, it.name).None?
  }

  /** The guards keep the tables inside their arrays, and refuse nothing that would stay inside, except that they let
      one profiler too many through. */
  lemma {:induction false} GuardsKeepArraysIff(gs: Groups, it: Item, gid: nat)
    requires (it.DefGroup? || gid < |gs|) && Fits(gs)
    ensures Fits(Register(gs, it, gid).0) <==> Admitted(gs, it, gid) && !OneTooMany(gs, it, gid)
  {
    var gs' := Register(gs, it, gid).0;
    if !it.DefGroup? {
      assert gs' == gs[gid := gs'[gid]];
    }
  }

  /** The group handle a registration is made with: group_indexes[a]. */
  function GroupOf(hs: seq<nat>, it: Item): (r: nat)
    requires !it.DefGroup? ==> it.group < |hs|
  {
    if it.DefGroup? then 0 else hs[it.group]
  }

  /** The registrations of RT_debug_init in order: the tables and the handles they leave. */
  function Replay(gs: Groups, items: seq<Item>): (r: (Groups, seq<nat>))
    requires WellFormed(items)
    ensures |r.1| == |items| && |gs| <= |r.0|
    ensures forall k :: 0 <= k < |items| && items[k].DefGroup? ==> r.1[k] < |r.0|
  {
    if items == [] then (gs, [])
    else
      var k := |items| - 1;
      WellFormedPrefix(items, k);
      var (gs', hs) := Replay(gs, items[..k]);
      assert !items[k].DefGroup? ==> items[..k][items[k].group].DefGroup?;
      var (gs'', h) := Register(gs', items[k], GroupOf(hs, items[k]));
      (gs'', hs + [h])
  }

  /** One registration more. */
  lemma ReplayNext(gs: Groups, items: seq<Item>, k: nat)
    requires WellFormed(items) && k < |items|
    ensures WellFormed(items[..k]) && WellFormed(items[..k + 1])
    ensures var (gs', hs) := Replay(gs, items[..k]);
            && (!items[k].DefGroup? ==> items[k].group < |hs| && hs[items[k].group] < |gs'|)
            && var (gs'', h) := Register(gs', items[k], GroupOf(hs, items[k]));
               Replay(gs, items[..k + 1]) == (gs'', hs + [h])
  {
    WellFormedPrefix(items, k);
    WellFormedPrefix(items, k + 1);
    assert items[..k + 1][..k] == items[..k];
    assert !items[k].DefGroup? ==> items[..k][items[k].group].DefGroup?;
  }

  // ---------- What a replay leaves, and what it leaves alone ----------

  ghost predicate GroupKept(a: GroupBody, b: GroupBody) {
    NamesKept(a.formats, b.formats) && NamesKept(a.counters, b.counters) && NamesKept(a.profs, b.profs)
  }

  /** Every table of `b` keeps the names of the same table of `a` where they were. */
  ghost predicate Grown(a: Groups, b: Groups) {
    NamesKept(a, b) && forall g :: 0 <= g < |a| ==> GroupKept(a[g].data, b[g].data)
  }

  /** Registration `k` finds its name with the handle it has. */
  ghost predicate Located(gs: Groups, items: seq<Item>, hs: seq<nat>, k: nat)
    requires k < |items| == |hs| && WellFormed(items)
  {
    match items[k]
    case DefGroup(n) => Find(gs, n) == Some(hs[k])
    case DefEvent(g, n) => hs[g] < |gs| && Find(gs[hs[g]].data.counters, n) == Some(hs[k])
    case DefTrace(g, n) => hs[g] < |gs| && Find(gs[hs[g]].data.formats, n) == Some(hs[k])
    case DefProfile(g, n) => hs[g] < |gs| && Find(gs[hs[g]].data.profs, n) == Some(hs[k])
  }

  ghost predicate AllLocated(gs: Groups, items: seq<Item>, hs: seq<nat>)
    requires WellFormed(items)
  {
    |hs| == |items| && forall k :: 0 <= k < |items| ==> Located(gs, items, hs, k)
  }

  lemma RegisterGrows(gs: Groups, it: Item, gid: nat)
    requires it.DefGroup? || gid < |gs|
    ensures Grown(gs, Register(gs, it, gid).0)
  {
  }

  lemma GrownSelf(gs: Groups)
    ensures Grown(gs, gs)
  {
  }

  lemma GrownTrans(a: Groups, b: Groups, c: Groups)
    requires Grown(a, b) && Grown(b, c)
    ensures Grown(a, c)
  {
  }

  lemma {:induction false} ReplayGrows(gs: Groups, items: seq<Item>)
    requires WellFormed(items)
    ensures Grown(gs, Replay(gs, items).0)
  {
    if items != [] {
      var k := |items| - 1;
      WellFormedPrefix(items, k);
      ReplayGrows(gs, items[..k]);
      assert !items[k].DefGroup? ==> items[..k][items[k].group].DefGroup?;
      var (gs', hs) := Replay(gs, items[..k]);
      RegisterGrows(gs', items[k], GroupOf(hs, items[k]));
      GrownTrans(gs, gs', Replay(gs, items).0);
    }
  }

  lemma LocatedStays(a: Groups, b: Groups, items: seq<Item>, hs: seq<nat>, k: nat)
    requires WellFormed(items) && k < |items| == |hs| && Grown(a, b) && Located(a, items, hs, k)
    ensures Located(b, items, hs, k)
  {
    match items[k]
    case DefGroup(n) => FoundStays(a, b, n);
    case DefEvent(g, n) => FoundStays(a[hs[g]].data.counters, b[hs[g]].data.counters, n);
    case DefTrace(g, n) => FoundStays(a[hs[g]].data.formats, b[hs[g]].data.formats, n);
    case DefProfile(g, n) => FoundStays(a[hs[g]].data.profs, b[hs[g]].data.profs, n);
  }

  lemma RegisterLocates(gs: Groups, it: Item, gid: nat, items: seq<Item>, hs: seq<nat>)
    requires WellFormed(items + [it]) && |hs| == |items|
    requires !it.DefGroup? ==> it.group < |hs| && gid == hs[it.group] && gid < |gs|
    ensures var r := Register(gs, it, gid); Located(r.0, items + [it], hs + [r.1], |items|)
  {
    match it
    case DefGroup(n) => EnterFinds(gs, n, FreshGroup());
    case DefEvent(_, n) => EnterFinds(gs[gid].data.counters, n, -1);
    case DefTrace(_, n) => EnterFinds(gs[gid].data.formats, n, ());
    case DefProfile(_, n) => EnterFinds(gs[gid].data.profs, n, []);
  }

  /** After a replay every registered name is found with the handle the replay returned. */
  lemma {:induction false} ReplayLocates(gs: Groups, items: seq<Item>)
    requires WellFormed(items)
    ensures AllLocated(Replay(gs, items).0, items, Replay(gs, items).1)
  {
    if items != [] {
      var k := |items| - 1;
      WellFormedPrefix(items, k);
      ReplayLocates(gs, items[..k]);
      var (gs', hs) := Replay(gs, items[..k]);
      assert items == items[..k] + [items[k]];
      assert !items[k].DefGroup? ==> items[..k][items[k].group].DefGroup?;
      var gid := GroupOf(hs, items[k]);
      var (gs'', h) := Register(gs', items[k], gid);
      RegisterGrows(gs', items[k], gid);
      RegisterLocates(gs', items[k], gid, items[..k], hs);
      forall j | 0 <= j < |items| ensures Located(gs'', items, hs + [h], j) {
        if j < k {
          LocatedStays(gs', gs'', items[..k], hs, j);
        }
      }
    }
  }

  lemma RegisterOverLocated(gs: Groups, items: seq<Item>, hs: seq<nat>, k: nat)
    requires WellFormed(items) && k < |items| == |hs| && Located(gs, items, hs, k)
    ensures items[k].DefGroup? || hs[items[k].group] < |gs|
    ensures Register(gs, items[k], GroupOf(hs, items[k])) == (gs, hs[k])
  {
    if !items[k].DefGroup? {
      assert gs[hs[items[k].group] := gs[hs[items[k].group]]] == gs;
    }
  }

  /** Over tables that hold all the names, a replay changes nothing and returns the handles they have. */
  lemma {:induction false} ReplayOverLocated(gs: Groups, items: seq<Item>, hs: seq<nat>)
    requires WellFormed(items) && AllLocated(gs, items, hs)
    ensures Replay(gs, items) == (gs, hs)
  {
    if items != [] {
      var k := |items| - 1;
      WellFormedPrefix(items, k);
      forall j | 0 <= j < k ensures Located(gs, items[..k], hs[..k], j) {
        assert Located(gs, items, hs, j);
      }
      ReplayOverLocated(gs, items[..k], hs[..k]);
      RegisterOverLocated(gs, items, hs, k);
      assert GroupOf(hs[..k], items[k]) == GroupOf(hs, items[k]);
      assert hs == hs[..k] + [hs[k]];
    }
  }

  /** Handles never change: once a list has been registered, replaying it over any later state of the tables,
      in which names were added and data changed, touches no table, ring, FIFO or counter and returns the
      handles of the first run. */
  lemma {:induction false} ReplayIsStable(gs: Groups, items: seq<Item>, later: Groups)
    requires WellFormed(items) && Grown(Replay(gs, items).0, later)
    ensures Replay(later, items) == (later, Replay(gs, items).1)
  {
    ReplayLocates(gs, items);
    forall k | 0 <= k < |items| ensures Located(later, items, Replay(gs, items).1, k) {
      LocatedStays(Replay(gs, items).0, later, items, Replay(gs, items).1, k);
    }
    ReplayOverLocated(later, items, Replay(gs, items).1);
  }

  /** Re-attachment is idempotent, and a replay leaves the tables alone exactly when they hold its names already. */
  lemma ReplayIsIdempotent(gs: Groups, items: seq<Item>)
    requires WellFormed(items)
    ensures Replay(Replay(gs, items).0, items) == Replay(gs, items)
    ensures Replay(gs, items).0 == gs <==> exists hs :: AllLocated(gs, items, hs)
  {
    GrownSelf(Replay(gs, items).0);
    ReplayIsStable(gs, items, Replay(gs, items).0);
    if Replay(gs, items).0 == gs {
      ReplayLocates(gs, items);
    }
    if hs :| AllLocated(gs, items, hs) {
      ReplayOverLocated(gs, items, hs);
    }
  }

  /** Within a table, handles are equal exactly for equal names. */
  lemma HandlesNameTheirEntries(gs: Groups, items: seq<Item>, i: nat, j: nat)
    requires WellFormed(items) && i < |items| && j < |items|
    ensures var hs := Replay(gs, items).1;
            && (items[i].DefGroup? && items[j].DefGroup? ==> (hs[i] == hs[j] <==> items[i].name == items[j].name))
            && (items[i].DefEvent? && items[j].DefEvent? && hs[items[i].group] == hs[items[j].group] ==>
                  (hs[i] == hs[j] <==> items[i].name == items[j].name))
            && (items[i].DefTrace? && items[j].DefTrace? && hs[items[i].group] == hs[items[j].group] ==>
                  (hs[i] == hs[j] <==> items[i].name == items[j].name))
            && (items[i].DefProfile? && items[j].DefProfile? && hs[items[i].group] == hs[items[j].group] ==>
                  (hs[i] == hs[j] <==> items[i].name == items[j].name))
  {
    ReplayLocates(gs, items);
    var (gs', hs) := Replay(gs, items);
    assert Located(gs', items, hs, i) && Located(gs', items, hs, j);
  }

  // ---------- Handles are dense ----------

  datatype Kind = Counters | Formats | Profilers

  predicate OfKind(it: Item, kind: Kind) {
    match kind
    case Counters => it.DefEvent?
    case Formats => it.DefTrace?
    case Profilers => it.DefProfile?
  }

  function TableSize(b: GroupBody, kind: Kind): nat {
    match kind
    case Counters => |b.counters|
    case Formats => |b.formats|
    case Profilers => |b.profs|
  }

  /** The size a group's table had when the replay began, or has when the group is new. */
  function SizeBefore(gs: Groups, g: nat, kind: Kind): nat {
    TableSize(if g < |gs| then gs[g].data else FreshGroup(), kind)
  }

  /** Some registration of a group returned `h`. */
  ghost predicate GroupGiven(items: seq<Item>, hs: seq<nat>, h: nat) {
    exists k :: 0 <= k < |items| && k < |hs| && items[k].DefGroup? && hs[k] == h
  }

  /** Some registration in this table of group `g` returned `h`. */
  ghost predicate Given(items: seq<Item>, hs: seq<nat>, g: nat, kind: Kind, h: nat) {
    exists k :: 0 <= k < |items| && k < |hs| && OfKind(items[k], kind) && items[k].group < |hs|
                && hs[items[k].group] == g && hs[k] == h
  }

  /** Entry `h` of that table is there now and was not before. */
  ghost predicate Added(gs: Groups, after: Groups, g: nat, kind: Kind, h: nat) {
    g < |after| && SizeBefore(gs, g, kind) <= h < TableSize(after[g].data, kind)
  }

  /** Every entry added since `gs` belongs to a handle that was returned. */
  ghost predicate Dense(gs: Groups, after: Groups, items: seq<Item>, hs: seq<nat>) {
    && (forall h: nat :: |gs| <= h < |after| ==> GroupGiven(items, hs, h))
    && (forall g: nat, kind, h: nat :: Added(gs, after, g, kind, h) ==> Given(items, hs, g, kind, h))
  }

  lemma GivenStays(items: seq<Item>, hs: seq<nat>, it: Item, h: nat)
    requires |hs| == |items|
    ensures forall x: nat :: GroupGiven(items, hs, x) ==> GroupGiven(items + [it], hs + [h], x)
    ensures forall g: nat, kind, x: nat :: Given(items, hs, g, kind, x) ==> Given(items + [it], hs + [h], g, kind, x)
  {
    forall x: nat | GroupGiven(items, hs, x) ensures GroupGiven(items + [it], hs + [h], x) {
      var k :| 0 <= k < |items| && k < |hs| && items[k].DefGroup? && hs[k] == x;
      assert (items + [it])[k] == items[k] && (hs + [h])[k] == x;
    }
    forall g: nat, kind, x: nat | Given(items, hs, g, kind, x) ensures Given(items + [it], hs + [h], g, kind, x) {
      var k :| 0 <= k < |items| && k < |hs| && OfKind(items[k], kind) && items[k].group < |hs|
               && hs[items[k].group] == g && hs[k] == x;
      assert (items + [it])[k] == items[k] && (hs + [h])[k] == x && (hs + [h])[items[k].group] == g;
    }
  }

  /** One registration adds at most the entry whose handle it returns. */
  lemma RegisterAddsItsHandle(gs: Groups, it: Item, gid: nat)
    requires it.DefGroup? || gid < |gs|
    ensures var (gs', h) := Register(gs, it, gid);
            && (|gs'| == |gs| || (it.DefGroup? && |gs'| == |gs| + 1 && h == |gs| && gs'[h].data == FreshGroup()))
            && (forall g: nat, kind, x: nat :: Added(gs, gs', g, kind, x) ==> OfKind(it, kind) && g == gid && x == h)
  {
  }

  lemma DenseStep(gs: Groups, mid: Groups, items: seq<Item>, hs: seq<nat>, it: Item, gid: nat)
    requires Dense(gs, mid, items, hs) && |hs| == |items| && |gs| <= |mid|
    requires if it.DefGroup? then gid == 0 else it.group < |hs| && gid == hs[it.group] && gid < |mid|
    ensures var (after, h) := Register(mid, it, gid); Dense(gs, after, items + [it], hs + [h])
  {
    var (after, h) := Register(mid, it, gid);
    RegisterAddsItsHandle(mid, it, gid);
    GivenStays(items, hs, it, h);
    var items', hs', k := items + [it], hs + [h], |items|;
    assert items'[k] == it && hs'[k] == h;
    forall x: nat | |gs| <= x < |after| ensures GroupGiven(items', hs', x) {
      assert x < |mid| ==> GroupGiven(items, hs, x);
    }
    forall g: nat, kind, x: nat | Added(gs, after, g, kind, x) ensures Given(items', hs', g, kind, x) {
      if Added(gs, mid, g, kind, x) {
        assert Given(items, hs, g, kind, x);
      } else {
        assert Added(mid, after, g, kind, x);
        assert hs'[it.group] == g;
      }
    }
  }

  /** Handles are dense: every group, counter, format and profiler that a replay added, over whatever was there
      before, has a handle that some registration of the list returned. On fresh memory that is all of them,
      except each group's default format. */
  lemma {:induction false} ReplayIsDense(gs: Groups, items: seq<Item>)
    requires WellFormed(items)
    ensures Dense(gs, Replay(gs, items).0, items, Replay(gs, items).1)
  {
    if items != [] {
      var k := |items| - 1;
      var front, it := items[..k], items[k];
      WellFormedPrefix(items, k);
      ReplayIsDense(gs, front);
      ReplayNext(gs, items, k);
      var (mid, hs) := Replay(gs, front);
      assert items[..k + 1] == items && front + [it] == items;
      hide Dense, Register, Replay, WellFormed;
      DenseStep(gs, mid, front, hs, it, GroupOf(hs, it));
    }
  }

  // ---------- Raw enum values and looked-up handles ----------

  predicate Distinct(names: seq<string>) {
    forall i, j :: 0 <= i < j < |names| ==> names[i] != names[j]
  }

  function GroupItems(names: seq<string>): (items: seq<Item>)
    ensures |items| == |names| && WellFormed(items)
    ensures forall k :: 0 <= k < |names| ==> items[k] == DefGroup(names[k])
  {
    seq(|names|, k requires 0 <= k < |names| => DefGroup(names[k]))
  }

  /** The groups already in the memory are the first of `names`, as far as both go. */
  predicate SameStart(gs: Groups, names: seq<string>) {
    forall a :: 0 <= a < |gs| && a < |names| ==> gs[a].name == names[a]
  }

  /** The table holds the first `k` names in order, on top of the `n` groups it began with. */
  predicate InEnumOrder(gs: Groups, names: seq<string>, n: nat, k: nat) {
    && k <= |names| && |gs| == (if k <= n then n else k)
    && SameStart(gs, names)
  }

  lemma NextInEnumOrder(gs: Groups, names: seq<string>, n: nat, k: nat)
    requires Distinct(names) && InEnumOrder(gs, names, n, k) && k < |names|
    ensures var (gs', h) := Enter(gs, names[k], FreshGroup()); h == k && InEnumOrder(gs', names, n, k + 1)
  {
    if k < |gs| {
      FindFirst(gs, names[k], k);
    }
  }

  lemma {:induction false} SameStartGivesEnum(gs: Groups, names: seq<string>, k: nat)
    requires Distinct(names) && SameStart(gs, names) && k <= |names|
    ensures WellFormed(GroupItems(names)[..k])
    ensures var (gs', hs) := Replay(gs, GroupItems(names)[..k]);
            InEnumOrder(gs', names, |gs|, k) && forall a :: 0 <= a < k ==> hs[a] == a
  {
    WellFormedPrefix(GroupItems(names), k);
    if k > 0 {
      SameStartGivesEnum(gs, names, k - 1);
      assert GroupItems(names)[..k][..k - 1] == GroupItems(names)[..k - 1];
      NextInEnumOrder(Replay(gs, GroupItems(names)[..k - 1]).0, names, |gs|, k - 1);
    }
  }

  /** Every group's looked-up handle is its enum value. */
  ghost predicate EnumIsHandle(gs: Groups, names: seq<string>) {
    forall a :: 0 <= a < |names| ==> Replay(gs, GroupItems(names)).1[a] == a
  }

  lemma SameStartGivesHandle(gs: Groups, names: seq<string>)
    requires Distinct(names) && SameStart(gs, names)
    ensures EnumIsHandle(gs, names)
  {
    SameStartGivesEnum(gs, names, |names|);
    assert GroupItems(names)[..|names|] == GroupItems(names);
  }

  lemma EnumGivesSameStart(gs: Groups, names: seq<string>)
    requires EnumIsHandle(gs, names)
    ensures SameStart(gs, names)
  {
    var (gs', hs) := Replay(gs, GroupItems(names));
    ReplayLocates(gs, GroupItems(names));
    ReplayGrows(gs, GroupItems(names));
    forall a | 0 <= a < |gs| && a < |names| ensures gs[a].name == names[a] {
      assert Located(gs', GroupItems(names), hs, a);
      assert Find(gs', names[a]) == Some(hs[a]) && hs[a] == a;
    }
  }

  /** The log path uses a group's enum value, the trace path its looked-up handle. For every group of the
      list the two are the same exactly when the groups already in the memory are the first of the list in
      its order; on fresh memory they always are. */
  lemma EnumIsHandleIff(gs: Groups, names: seq<string>)
    requires Distinct(names)
    ensures EnumIsHandle(gs, names) <==> SameStart(gs, names)
    ensures EnumIsHandle([], names)
  {
    if SameStart(gs, names) {
      SameStartGivesHandle(gs, names);
    }
    if EnumIsHandle(gs, names) {
      EnumGivesSameStart(gs, names);
    }
    SameStartGivesHandle([], names);
  }
}
