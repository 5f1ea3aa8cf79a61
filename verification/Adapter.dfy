/** RT_debug_init filling the adapter's handle tables. */
module Adapter {
  import opened Registry
  import opened SharedMemory

  lemma {:induction false} ReplayPrefixGrows(gs: Groups, items: seq<Item>, k: nat)
    requires WellFormed(items) && k <= |items|
    ensures WellFormed(items[..k]) && Grown(Replay(gs, items[..k]).0, Replay(gs, items).0)
    decreases |items| - k
  {
    WellFormedPrefix(items, k);
    if k == |items| {
      assert items[..k] == items;
      GrownSelf(Replay(gs, items).0);
    } else {
      ReplayNext(gs, items, k);
      ReplayPrefixGrows(gs, items, k + 1);
      var (gs', hs) := Replay(gs, items[..k]);
      RegisterGrows(gs', items[k], GroupOf(hs, items[k]));
      GrownTrans(gs', Replay(gs, items[..k + 1]).0, Replay(gs, items).0);
    }
  }

  lemma ReplayNothing(gs: Groups)
    ensures Replay(gs, []) == (gs, [])
  {
  }

  /** What fits at the end fits on the way. */
  lemma GrownFits(a: Groups, b: Groups)
    requires Grown(a, b) && Fits(b)
    ensures Fits(a)
  {
  }

  /** Every registration of a list whose end fits is one the tables have room for. */
  lemma NextRegistration(gs: Groups, items: seq<Item>, k: nat)
    requires WellFormed(items) && Fits(Replay(gs, items).0) && k < |items|
    ensures WellFormed(items[..k]) && WellFormed(items[..k + 1])
    ensures var (gs', hs) := Replay(gs, items[..k]);
            && (!items[k].DefGroup? ==> items[k].group < |hs| && hs[items[k].group] < |gs'|)
            && var (gs'', h) := Register(gs', items[k], GroupOf(hs, items[k]));
               && Admitted(gs', items[k], GroupOf(hs, items[k])) && !OneTooMany(gs', items[k], GroupOf(hs, items[k]))
               && Replay(gs, items[..k + 1]) == (gs'', hs + [h])
  {
    ReplayNext(gs, items, k);
    ReplayPrefixGrows(gs, items, k + 1);
    GrownFits(Replay(gs, items[..k + 1]).0, Replay(gs, items).0);
    ReplayPrefixGrows(gs, items, k);
    GrownFits(Replay(gs, items[..k]).0, Replay(gs, items).0);
    hide Register, Replay, Fits, Admitted, OneTooMany;
    var (gs', hs) := Replay(gs, items[..k]);
    GuardsKeepArraysIff(gs', items[k], GroupOf(hs, items[k]));
  }

  /** The first `k` registrations over `start` have left the tables `gs` and the handles `hs`. */
  ghost predicate ReplayedTo(start: Groups, items: seq<Item>, k: nat, gs: Groups, hs: seq<nat>) {
    && k <= |items| && WellFormed(items) && WellFormed(items[..k])
    && (gs, hs) == Replay(start, items[..k])
  }

  lemma ReplayEnds(start: Groups, items: seq<Item>)
    requires WellFormed(items)
    ensures ReplayedTo(start, items, 0, start, [])
    ensures forall gs, hs :: ReplayedTo(start, items, |items|, gs, hs) ==> (gs, hs) == Replay(start, items)
  {
    ReplayNothing(start);
    assert items[..0] == [] && items[..|items|] == items;
  }

  lemma ReplayStep(start: Groups, items: seq<Item>, k: nat, gs: Groups, hs: seq<nat>)
    requires WellFormed(items) && Fits(Replay(start, items).0)
    requires k < |items| && ReplayedTo(start, items, k, gs, hs)
    ensures items[k].DefGroup? || (items[k].group < |hs| && hs[items[k].group] < |gs|)
    ensures var g := GroupOf(hs, items[k]);
            && Admitted(gs, items[k], g) && !OneTooMany(gs, items[k], g)
            && var (gs', h) := Register(gs, items[k], g); ReplayedTo(start, items, k + 1, gs', hs + [h])
  {
    NextRegistration(start, items, k);
  }

  class AdapterTables {
    const shm: DebugRT
    var handles: seq<nat>       // group_indexes, group_events, traces and prof_points, by macro position

    constructor (shm: DebugRT)
      ensures this.shm == shm && handles == []
    {
      this.shm := shm;
      handles := [];
    }

    /** The registrations in order. */
    method RegisterAll(items: seq<Item>)
      requires WellFormed(items) && Fits(Replay(shm.groups, items).0)
      modifies this`handles, shm`groups
      ensures (shm.groups, handles) == Replay(old(shm.groups), items)
    {
      ghost var start := shm.groups;
      ReplayEnds(start, items);
      hide Register, Replay, Fits, Admitted, OneTooMany, ReplayedTo, WellFormed;
      handles := [];
      for k := 0 to |items|
        invariant ReplayedTo(start, items, k, shm.groups, handles)
      {
        ReplayStep(start, items, k, shm.groups, handles);
        var h := shm.Perform(items[k], GroupOf(handles, items[k]));
        handles := handles + [h];
      }
    }

    /** RT_debug_init: attach to the memory as it is when the file exists, otherwise create it empty; then
        perform the registrations in order and start the collection. */
    method RtDebugInit(fileExists: bool, items: seq<Item>)
      requires WellFormed(items)
      requires Fits(Replay(if fileExists then shm.groups else [], items).0)
      modifies this`handles, shm
      ensures (shm.groups, handles) == Replay(if fileExists then old(shm.groups) else [], items)
      ensures shm.active
    {
      if !fileExists {
        shm.Init();
        shm.SetDataCollection(true);
      }
      RegisterAll(items);
      shm.SetDataCollection(true);
    }
  }

  /** A second process that attaches and registers the same list finds everything as it was and gets the
      same handles. */
  method AttachAgain(a: AdapterTables, items: seq<Item>)
    requires WellFormed(items) && Fits(a.shm.groups)
    requires exists gs :: (a.shm.groups, a.handles) == Replay(gs, items)
    modifies a, a.shm
    ensures a.shm.groups == old(a.shm.groups) && a.handles == old(a.handles)
  {
    ghost var gs :| (a.shm.groups, a.handles) == Replay(gs, items);
    ReplayIsIdempotent(gs, items);
    a.RtDebugInit(true, items);
  }
}
