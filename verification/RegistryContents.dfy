/** What a replay leaves in every table, entry by entry, over any memory it began with. */
module RegistryContents {
  import opened TraceGroups
  import opened Registry

  // ---------- Nothing but new entries ----------

  /** A group as it must be when only its tables of names grew: the logs and the ring are untouched, each table
      begins with the entries it had, and new counters hold -1 and new profilers nothing. */
  ghost predicate BodyOnlyGrew(a: GroupBody, b: GroupBody) {
    && b.logs == a.logs && b.slots == a.slots
    && a.formats <= b.formats && a.counters <= b.counters && a.profs <= b.profs
    && (forall i :: |a.counters| <= i < |b.counters| ==> b.counters[i].data == -1)
    && (forall i :: |a.profs| <= i < |b.profs| ==> b.profs[i].data == [])
  }

  /** A group nobody has used: no logs, 1000 trace slots and none of them live, the default format, no counters and
      no profilers. */
  ghost predicate Unused(b: GroupBody) {
    && b.logs == [] && |b.slots| == 1000 && (forall i :: 0 <= i < 1000 ==> !Live(b.slots[i]))
    && |b.formats| == 1 && b.formats[0].name == "val0= %llu, val1=%llu, val2= %llu, val3= %llu"
    && b.counters == [] && b.profs == []
  }

  /** A group that was not there before, with what has been registered in it since. */
  ghost predicate NewBody(b: GroupBody) {
    exists a :: Unused(a) && BodyOnlyGrew(a, b)
  }

  ghost predicate OnlyGrew(gs: Groups, after: Groups) {
    && |gs| <= |after|
    && (forall g :: 0 <= g < |gs| ==> after[g].name == gs[g].name && BodyOnlyGrew(gs[g].data, after[g].data))
    && (forall g :: |gs| <= g < |after| ==> NewBody(after[g].data))
  }

  lemma BodyGrewOn(a: GroupBody, b: GroupBody, c: GroupBody)
    requires BodyOnlyGrew(a, b) && BodyOnlyGrew(b, c)
    ensures BodyOnlyGrew(a, c)
  {
  }

  /** One registration: the groups grow by at most the group it names; in a group that was there at most one entry
      is added, to the table of the item's kind, and everything else stays as it is. */
  lemma RegisterTouchesOne(gs: Groups, it: Item, gid: nat)
    requires it.DefGroup? || gid < |gs|
    ensures var (after, h) := Register(gs, it, gid);
            && |gs| <= |after| <= |gs| + 1
            && (|after| > |gs| ==> it.DefGroup? && after[|gs|].name == it.name && Unused(after[|gs|].data))
            && (forall g :: 0 <= g < |gs| ==> after[g].name == gs[g].name && BodyOnlyGrew(gs[g].data, after[g].data))
            && (forall g :: 0 <= g < |gs| && (it.DefGroup? || g != gid) ==> after[g] == gs[g])
            && (!it.DefGroup? ==>
                  var (a, b) := (gs[gid].data, after[gid].data);
                  && (if it.DefEvent? then |b.counters| <= |a.counters| + 1 else b.counters == a.counters)
                  && (if it.DefTrace? then |b.formats| <= |a.formats| + 1 else b.formats == a.formats)
                  && (if it.DefProfile? then |b.profs| <= |a.profs| + 1 else b.profs == a.profs))
  {
  }

  lemma OnlyGrewOn(gs: Groups, mid: Groups, it: Item, gid: nat)
    requires OnlyGrew(gs, mid) && (it.DefGroup? || gid < |mid|)
    ensures OnlyGrew(gs, Register(mid, it, gid).0)
  {
    var after := Register(mid, it, gid).0;
    RegisterTouchesOne(mid, it, gid);
    forall g | 0 <= g < |gs| ensures BodyOnlyGrew(gs[g].data, after[g].data) {
      BodyGrewOn(gs[g].data, mid[g].data, after[g].data);
    }
    forall g | |gs| <= g < |after| ensures NewBody(after[g].data) {
      if g < |mid| {
        var a :| Unused(a) && BodyOnlyGrew(a, mid[g].data);
        BodyGrewOn(a, mid[g].data, after[g].data);
      } else {
        assert BodyOnlyGrew(after[g].data, after[g].data);
      }
    }
  }

  /** Over any memory a replay leaves every log, every ring and every entry that was there as it was, and the groups
      it adds are unused but for what it registers in them. */
  lemma {:induction false} ReplayOnlyGrows(gs: Groups, items: seq<Item>)
    requires WellFormed(items)
    ensures OnlyGrew(gs, Replay(gs, items).0)
  {
    if items != [] {
      var k := |items| - 1;
      var front, it := items[..k], items[k];
      WellFormedPrefix(items, k);
      ReplayOnlyGrows(gs, front);
      ReplayNext(gs, items, k);
      assert items[..k + 1] == items;
      var (mid, hs) := Replay(gs, front);
      hide OnlyGrew, Register, Replay, WellFormed;
      OnlyGrewOn(gs, mid, it, GroupOf(hs, it));
    }
  }

  // ---------- The names in order ----------

  function NamesOf<T>(tbl: seq<Named<T>>): (r: seq<string>)
    ensures |r| == |tbl| && forall i :: 0 <= i < |tbl| ==> r[i] == tbl[i].name
  {
    seq(|tbl|, i requires 0 <= i < |tbl| => tbl[i].name)
  }

  function NamesIn(b: GroupBody, kind: Kind): seq<string> {
    match kind
    case Counters => NamesOf(b.counters)
    case Formats => NamesOf(b.formats)
    case Profilers => NamesOf(b.profs)
  }

  /** `names` followed by those of `more` that are new, each once, in order. */
  function WithNew(names: seq<string>, more: seq<string>): seq<string> {
    if more == [] then names
    else
      var r := WithNew(names, more[..|more| - 1]);
      var n := more[|more| - 1];
      if n in r then r else r + [n]
  }

  /** The names registered for groups. */
  function GroupNames(items: seq<Item>): seq<string> {
    if items == [] then []
    else
      var it := items[|items| - 1];
      GroupNames(items[..|items| - 1]) + if it.DefGroup? then [it.name] else []
  }

  /** The names registered in that table of group `g`. */
  function NamesFor(items: seq<Item>, hs: seq<nat>, g: nat, kind: Kind): seq<string>
    requires |hs| == |items| && WellFormed(items)
  {
    if items == [] then []
    else
      var k := |items| - 1;
      WellFormedPrefix(items, k);
      NamesFor(items[..k], hs[..k], g, kind)
      + if OfKind(items[k], kind) && hs[items[k].group] == g then [items[k].name] else []
  }

  /** What a table of a group that is new begins with. */
  function NewNames(kind: Kind): seq<string> {
    if kind == Formats then ["val0= %llu, val1=%llu, val2= %llu, val3= %llu"] else []
  }

  function NamesBefore(gs: Groups, g: nat, kind: Kind): seq<string> {
    if g < |gs| then NamesIn(gs[g].data, kind) else NewNames(kind)
  }

  lemma EnterAddsName<T>(tbl: seq<Named<T>>, name: string, init: T)
    ensures NamesOf(Enter(tbl, name, init).0) == WithNew(NamesOf(tbl), [name])
  {
    assert WithNew(NamesOf(tbl), [name][..0]) == NamesOf(tbl);
    if Find(tbl, name).Some? {
      assert NamesOf(tbl)[Find(tbl, name).value] == name;
    } else {
      assert forall i :: 0 <= i < |tbl| ==> NamesOf(tbl)[i] != name;
      assert NamesOf(tbl + [Named(name, init)]) == NamesOf(tbl) + [name];
    }
  }

  /** One registration adds its name to the one table it is for, unless it is there. */
  lemma RegisterAddsName(gs: Groups, it: Item, gid: nat)
    requires it.DefGroup? || gid < |gs|
    ensures var after := Register(gs, it, gid).0;
            && NamesOf(after) == (if it.DefGroup? then WithNew(NamesOf(gs), [it.name]) else NamesOf(gs))
            && (forall g: nat, kind :: g < |after| ==>
                  NamesIn(after[g].data, kind) ==
                  if OfKind(it, kind) && g == gid then WithNew(NamesBefore(gs, g, kind), [it.name])
                  else NamesBefore(gs, g, kind))
  {
    match it
    case DefGroup(n) => EnterAddsName(gs, n, FreshGroup());
    case DefEvent(_, n) => EnterAddsName(gs[gid].data.counters, n, -1);
    case DefTrace(_, n) => EnterAddsName(gs[gid].data.formats, n, ());
    case DefProfile(_, n) => EnterAddsName(gs[gid].data.profs, n, []);
  }

  lemma WithNewNext(names: seq<string>, more: seq<string>, n: string)
    ensures WithNew(names, more + [n]) == WithNew(WithNew(names, more), [n])
  {
    assert (more + [n])[..|more|] == more;
    assert [n][..0] == [];
  }

  lemma NamesForNext(items: seq<Item>, hs: seq<nat>, it: Item, h: nat, g: nat, kind: Kind)
    requires |hs| == |items| && WellFormed(items) && WellFormed(items + [it])
    requires it.DefGroup? || it.group < |hs|
    ensures NamesFor(items + [it], hs + [h], g, kind) ==
            NamesFor(items, hs, g, kind) + if OfKind(it, kind) && hs[it.group] == g then [it.name] else []
  {
    assert (items + [it])[..|items|] == items && (hs + [h])[..|items|] == hs;
  }

  /** Nothing was registered for a group that does not exist. */
  lemma {:induction false} NothingForAbsent(items: seq<Item>, hs: seq<nat>, n: nat, g: nat, kind: Kind)
    requires |hs| == |items| && WellFormed(items) && g >= n
    requires forall k :: 0 <= k < |items| && items[k].DefGroup? ==> hs[k] < n
    ensures NamesFor(items, hs, g, kind) == []
  {
    if items != [] {
      var k := |items| - 1;
      WellFormedPrefix(items, k);
      NothingForAbsent(items[..k], hs[..k], n, g, kind);
    }
  }

  /** The tables hold, in order, the names that were there and then the new ones of the list, each once. */
  ghost predicate NamesAreThose(gs: Groups, after: Groups, items: seq<Item>, hs: seq<nat>)
    requires |hs| == |items| && WellFormed(items)
  {
    && NamesOf(after) == WithNew(NamesOf(gs), GroupNames(items))
    && forall g: nat, kind :: g < |after| ==>
         NamesIn(after[g].data, kind) == WithNew(NamesBefore(gs, g, kind), NamesFor(items, hs, g, kind))
  }

  lemma AddedName(names: seq<string>, more: seq<string>, added: bool, n: string)
    ensures WithNew(names, more + if added then [n] else []) ==
            if added then WithNew(WithNew(names, more), [n]) else WithNew(names, more)
  {
    if added {
      WithNewNext(names, more, n);
    } else {
      assert more + [] == more;
    }
  }

  lemma TableBefore(gs: Groups, mid: Groups, items: seq<Item>, hs: seq<nat>, g: nat, kind: Kind)
    requires |hs| == |items| && WellFormed(items) && |gs| <= |mid| && NamesAreThose(gs, mid, items, hs)
    requires forall k :: 0 <= k < |items| && items[k].DefGroup? ==> hs[k] < |mid|
    ensures NamesBefore(mid, g, kind) == WithNew(NamesBefore(gs, g, kind), NamesFor(items, hs, g, kind))
  {
    if g >= |mid| {
      NothingForAbsent(items, hs, |mid|, g, kind);
    }
  }

  /** A table of group `g` after one registration more. */
  lemma TableStep(gs: Groups, mid: Groups, items: seq<Item>, hs: seq<nat>, it: Item, g: nat, kind: Kind)
    requires |hs| == |items| && WellFormed(items) && WellFormed(items + [it]) && |gs| <= |mid|
    requires NamesAreThose(gs, mid, items, hs) && (forall k :: 0 <= k < |items| && items[k].DefGroup? ==> hs[k] < |mid|)
    requires !it.DefGroup? ==> it.group < |hs| && hs[it.group] < |mid|
    requires g < |Register(mid, it, GroupOf(hs, it)).0|
    ensures var (after, h) := Register(mid, it, GroupOf(hs, it));
            NamesIn(after[g].data, kind) == WithNew(NamesBefore(gs, g, kind), NamesFor(items + [it], hs + [h], g, kind))
  {
    hide NamesIn, NamesBefore, Register, NamesFor, NamesAreThose, WithNew, WellFormed;
    var h := Register(mid, it, GroupOf(hs, it)).1;
    RegisterAddsName(mid, it, GroupOf(hs, it));
    TableBefore(gs, mid, items, hs, g, kind);
    NamesForNext(items, hs, it, h, g, kind);
    AddedName(NamesBefore(gs, g, kind), NamesFor(items, hs, g, kind), OfKind(it, kind) && hs[it.group] == g, it.name);
  }

  lemma GroupsStep(gs: Groups, mid: Groups, items: seq<Item>, it: Item, gid: nat)
    requires (it.DefGroup? || gid < |mid|) && NamesOf(mid) == WithNew(NamesOf(gs), GroupNames(items))
    ensures NamesOf(Register(mid, it, gid).0) == WithNew(NamesOf(gs), GroupNames(items + [it]))
  {
    RegisterAddsName(mid, it, gid);
    hide NamesOf, Register;
    assert (items + [it])[..|items|] == items;
    WithNewNext(NamesOf(gs), GroupNames(items), it.name);
    assert GroupNames(items) + [] == GroupNames(items);
  }

  lemma NamesStep(gs: Groups, mid: Groups, items: seq<Item>, hs: seq<nat>, it: Item)
    requires |hs| == |items| && WellFormed(items) && WellFormed(items + [it]) && |gs| <= |mid|
    requires NamesAreThose(gs, mid, items, hs) && (forall k :: 0 <= k < |items| && items[k].DefGroup? ==> hs[k] < |mid|)
    requires !it.DefGroup? ==> it.group < |hs| && hs[it.group] < |mid|
    ensures var (after, h) := Register(mid, it, GroupOf(hs, it)); NamesAreThose(gs, after, items + [it], hs + [h])
  {
    var (after, h) := Register(mid, it, GroupOf(hs, it));
    GroupsStep(gs, mid, items, it, GroupOf(hs, it));
    hide NamesIn, NamesBefore, Register, NamesFor, WithNew, WellFormed, GroupNames, NamesOf;
    forall g: nat, kind | g < |after|
      ensures NamesIn(after[g].data, kind) ==
              WithNew(NamesBefore(gs, g, kind), NamesFor(items + [it], hs + [h], g, kind))
    {
      TableStep(gs, mid, items, hs, it, g, kind);
    }
  }

  lemma NothingRegistered(gs: Groups)
    ensures WellFormed([]) && NamesAreThose(gs, gs, [], [])
  {
  }

  /** Over any memory, what every table is called entry by entry after a replay. */
  lemma {:induction false} ReplayNames(gs: Groups, items: seq<Item>)
    requires WellFormed(items)
    ensures NamesAreThose(gs, Replay(gs, items).0, items, Replay(gs, items).1)
  {
    if items == [] {
      NothingRegistered(gs);
    } else {
      var k := |items| - 1;
      var front, it := items[..k], items[k];
      WellFormedPrefix(items, k);
      ReplayNames(gs, front);
      assert items[..k + 1] == items && front + [it] == items;
      ReplayNext(gs, items, k);
      hide NamesAreThose, Register, Replay, WellFormed, GroupOf;
      var (mid, hs) := Replay(gs, front);
      NamesStep(gs, mid, front, hs, it);
    }
  }

  lemma {:induction false} WithNewBegins(names: seq<string>, more: seq<string>)
    ensures names <= WithNew(names, more)
  {
    if more != [] {
      WithNewBegins(names, more[..|more| - 1]);
    }
  }

  /** In a group that is new, the default format has handle 0 and every other format a later one. */
  lemma {:induction false} FormatsCountFromOne(gs: Groups, items: seq<Item>, k: nat)
    requires WellFormed(items) && k < |items| && items[k].DefTrace?
    requires Replay(gs, items).1[items[k].group] >= |gs|
    ensures Replay(gs, items).1[k] == 0 <==> items[k].name == "val0= %llu, val1=%llu, val2= %llu, val3= %llu"
  {
    var (after, hs) := Replay(gs, items);
    var g := hs[items[k].group];
    ReplayLocates(gs, items);
    assert Located(after, items, hs, k);
    ReplayNames(gs, items);
    WithNewBegins(NewNames(Formats), NamesFor(items, hs, g, Formats));
    assert NamesIn(after[g].data, Formats)[0] == NewNames(Formats)[0];
    if hs[k] > 0 {
      FindIsFirst(after[g].data.formats, items[k].name, 0);
    }
  }
}
