/** Among devices of one level and type the plan keeps the order in which they are first met. */
module ShutdownTies {
  import opened Sorting
  import opened ShutdownPlan
  import opened ShutdownOrder

  /** The first of the trees that is for the device, or their number. */
  function FirstMet(ts: seq<Tree>, d: string): nat {
    if ts == [] then 0
    else
      var n := FirstMet(ts[..|ts| - 1], d);
      if n < |ts| - 1 || ts[|ts| - 1].device == d then n else |ts|
  }

  lemma {:induction false} FirstMetIs(ts: seq<Tree>, d: string)
    ensures FirstMet(ts, d) <= |ts| && (FirstMet(ts, d) < |ts| ==> ts[FirstMet(ts, d)].device == d)
    ensures forall i :: 0 <= i < FirstMet(ts, d) ==> ts[i].device != d
  {
    if ts != [] {
      FirstMetIs(ts[..|ts| - 1], d);
    }
  }

  ghost predicate Rise(order: seq<string>, met: seq<Tree>) {
    forall i, j :: 0 <= i < j < |order| ==> FirstMet(met, order[i]) < FirstMet(met, order[j])
  }

  /** The registry has the devices of the trees met so far, in the order in which they were first met. */
  ghost predicate Tracks(reg: Registry, met: seq<Tree>) {
    && (forall d :: d in reg.entries <==> FirstMet(met, d) < |met|)
    && (forall d :: d in reg.order <==> d in reg.entries)
    && Rise(reg.order, met)
  }

  lemma MetOneMore(met: seq<Tree>, t: Tree, d: string)
    ensures FirstMet(met, d) < |met| ==> FirstMet(met + [t], d) == FirstMet(met, d)
    ensures FirstMet(met, d) >= |met| ==> FirstMet(met + [t], d) == if t.device == d then |met| else |met| + 1
  {
    FirstMetIs(met, d);
    assert (met + [t])[..|met|] == met;
  }

  /** A further tree moves nothing that was met. */
  ghost predicate MetAlike(order: seq<string>, met: seq<Tree>, more: seq<Tree>) {
    forall i :: 0 <= i < |order| ==> FirstMet(more, order[i]) == FirstMet(met, order[i]) < |met|
  }

  lemma AllMetAlike(order: seq<string>, met: seq<Tree>, t: Tree)
    requires forall d :: d in order ==> FirstMet(met, d) < |met|
    ensures MetAlike(order, met, met + [t])
  {
    forall i | 0 <= i < |order| ensures FirstMet(met + [t], order[i]) == FirstMet(met, order[i]) < |met| {
      assert order[i] in order;
      MetOneMore(met, t, order[i]);
    }
  }

  lemma RiseStays(order: seq<string>, met: seq<Tree>, more: seq<Tree>)
    requires Rise(order, met) && MetAlike(order, met, more)
    ensures Rise(order, more)
    ensures forall d :: FirstMet(more, d) >= |met| ==> Rise(order + [d], more)
  {
  }

  lemma PutTracks(reg: Registry, met: seq<Tree>, t: Tree, e: Entry)
    requires Tracks(reg, met) && e.device == t.device
    ensures Tracks(reg.Put(e), met + [t])
  {
    AllMetAlike(reg.order, met, t);
    RiseStays(reg.order, met, met + [t]);
    MetOneMore(met, t, t.device);
    var r := reg.Put(e);
    forall d ensures d in r.entries <==> FirstMet(met + [t], d) < |met + [t]| {
      MetOneMore(met, t, d);
    }
  }

  /** The trees met once `t` has been walked as well. */
  function Walked(met: seq<Tree>, t: Tree): seq<Tree>
    decreases t, 0
  {
    WalkedAll(met + [t], t.holders, |t.holders|)
  }

  function WalkedAll(met: seq<Tree>, ts: seq<Tree>, n: nat): seq<Tree>
    requires n <= |ts|
    decreases ts, n
  {
    if n == 0 then met else Walked(WalkedAll(met, ts, n - 1), ts[n - 1])
  }

  lemma {:induction false} WalkedIs(met: seq<Tree>, t: Tree)
    ensures Walked(met, t) == met + Preorder(t)
    decreases t, 0
  {
    WalkedAllIs(met + [t], t.holders, |t.holders|);
  }

  lemma {:induction false} WalkedAllIs(met: seq<Tree>, ts: seq<Tree>, n: nat)
    requires n <= |ts|
    ensures WalkedAll(met, ts, n) == met + PreorderAll(ts, n)
    decreases ts, n
  {
    if n > 0 {
      WalkedAllIs(met, ts, n - 1);
      WalkedIs(WalkedAll(met, ts, n - 1), ts[n - 1]);
    }
  }

  lemma {:induction false} FlattenedTracks(reg: Registry, t: Tree, level: nat, met: seq<Tree>)
    requires Tracks(reg, met)
    ensures Tracks(Flattened(reg, t, level), Walked(met, t))
    decreases t, 0
  {
    var l := LevelFor(reg, t, level);
    PutTracks(reg, met, t, Entry(l, t.device, t.devType));
    FlattenedAllTracks(reg.Put(Entry(l, t.device, t.devType)), t.holders, l + 1, |t.holders|, met + [t]);
  }

  lemma {:induction false} FlattenedAllTracks(reg: Registry, ts: seq<Tree>, level: nat, n: nat, met: seq<Tree>)
    requires n <= |ts| && Tracks(reg, met)
    ensures Tracks(FlattenedAll(reg, ts, level, n), WalkedAll(met, ts, n))
    decreases ts, n
  {
    if n > 0 {
      FlattenedAllTracks(reg, ts, level, n - 1, met);
      FlattenedTracks(FlattenedAll(reg, ts, level, n - 1), ts[n - 1], level, WalkedAll(met, ts, n - 1));
    }
  }

  /** Where a device is first met: tree by tree in the order of their devices, each tree from its root on. */
  function Met(trees: seq<Tree>, d: string): nat {
    var ts := ByDevice(trees);
    FirstMet(PreorderAll(ts, |ts|), d)
  }

  ghost predicate MetBefore(trees: seq<Tree>, e: Entry, f: Entry) {
    e.level == f.level && e.devType == f.devType ==> Met(trees, e.device) < Met(trees, f.device)
  }

  lemma UnsortedRises(reg: Registry, met: seq<Tree>)
    requires reg.Valid() && Tracks(reg, met)
    ensures Rising(Unsorted(reg), (e: Entry) => FirstMet(met, e.device))
  {
    var raw, pos := Unsorted(reg), (e: Entry) => FirstMet(met, e.device);
    forall i, j | 0 <= i < j < |raw| ensures pos(raw[i]) <= pos(raw[j]) {
      assert raw[i].device == reg.order[i] && raw[j].device == reg.order[j];
    }
  }

  lemma MetApart(met: seq<Tree>, d: string, e: string)
    requires d != e && FirstMet(met, d) < |met| && FirstMet(met, e) < |met|
    ensures FirstMet(met, d) != FirstMet(met, e)
  {
    FirstMetIs(met, d);
    FirstMetIs(met, e);
  }

  lemma ListedAsRegistered(reg: Registry, met: seq<Tree>, i: nat, j: nat)
    requires reg.Valid() && Tracks(reg, met) && i < j < |Listed(reg)|
    ensures var e, f := Listed(reg)[i], Listed(reg)[j];
      e.level == f.level && e.devType == f.devType ==> FirstMet(met, e.device) < FirstMet(met, f.device)
  {
    var raw, plan, pos := Unsorted(reg), Listed(reg), (e: Entry) => FirstMet(met, e.device);
    UnsortedRises(reg, met);
    AtLeastTotal();
    SortStable(raw, AtLeast, pos);
    ListedIsSorted(reg);
    ListedFacts(reg);
    var e, f := plan[i], plan[j];
    assert Tied(AtLeast, pos)(e, f);
    assert e in plan && f in plan;
    MetApart(met, e.device, f.device);
  }

  /** Two devices of one level and type are shut down in the order in which they are first met. */
  lemma TiesAsMet(trees: seq<Tree>, i: nat, j: nat)
    requires i < j < |Plan(trees)|
    ensures MetBefore(trees, Plan(trees)[i], Plan(trees)[j])
  {
    var ts, reg := ByDevice(trees), ForestRegistry(trees);
    FlattenedAllValid(EMPTY_REGISTRY, ts, 0, |ts|);
    FlattenedAllTracks(EMPTY_REGISTRY, ts, 0, |ts|, []);
    WalkedAllIs([], ts, |ts|);
    assert [] + PreorderAll(ts, |ts|) == PreorderAll(ts, |ts|);
    ListedAsRegistered(reg, PreorderAll(ts, |ts|), i, j);
  }
}
