/** CDebugRT: the tables in the shared memory, updated in place, and the collection flag. */
module SharedMemory {
  import opened Registry

  /** The search-or-append loop of AllocDbgGrp, AllocCnt, AddTraceFormat and RegistryProfileEntry. */
  method FindOrAdd<T>(tbl: seq<Named<T>>, name: string, init: T) returns (tbl': seq<Named<T>>, h: nat)
    ensures (tbl', h) == Enter(tbl, name, init)
  {
    for i := 0 to |tbl|
      invariant forall j :: 0 <= j < i ==> tbl[j].name != name
    {
      if tbl[i].name == name {
        FindFirst(tbl, name, i);
        return tbl, i;
      }
    }
    return tbl + [Named(name, init)], |tbl|;
  }

  /** The shared memory: its groups and the collection flag. */
  class DebugRT {
    var groups: Groups
    var active: bool

    /** Init: no groups, no collection. */
    method Init()
      modifies this
      ensures groups == [] && !active
    {
      groups, active := [], false;
    }

    method SetDataCollection(start: bool)
      modifies this`active
      ensures active == start
    {
      active := start;
    }

    /** AllocDbgGrp, AllocCnt, AddTraceFormat or RegistryProfileEntry, as the macro says, when its guard lets the
        call through. Nothing is promised when it lets one profiler too many through. */
    method Perform(it: Item, gid: nat) returns (h: nat)
      requires it.DefGroup? || gid < |groups|
      requires Admitted(groups, it, gid)
      modifies this`groups
      ensures !OneTooMany(old(groups), it, gid) ==> (groups, h) == Register(old(groups), it, gid)
    {
      match it
      case DefGroup(n) =>
        groups, h := FindOrAdd(groups, n, FreshGroup());
      case DefEvent(_, n) =>
        var b := groups[gid].data;
        var t;
        t, h := FindOrAdd(b.counters, n, -1);
        groups := groups[gid := groups[gid].(data := b.(counters := t))];
      case DefTrace(_, n) =>
        var b := groups[gid].data;
        var t;
        t, h := FindOrAdd(b.formats, n, ());
        groups := groups[gid := groups[gid].(data := b.(formats := t))];
      case DefProfile(_, n) =>
        var b := groups[gid].data;
        var t;
        t, h := FindOrAdd(b.profs, n, []);
        groups := groups[gid := groups[gid].(data := b.(profs := t))];
    }
  }
}
