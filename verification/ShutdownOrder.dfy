/** Why the shutdown plan is safe: every device has its turn after everything stacked on it. */
module ShutdownOrder {
  import opened Sorting
  import opened ShutdownPlan

  // ----- What one flattening call does to the registry -----

  ghost predicate Rises(e: map<string, Entry>, s: set<Tree>) {
    forall t, i :: t in s && 0 <= i < |t.holders| ==>
      && t.device in e && t.holders[i].device in e
      && e[t.device].level < e[t.holders[i].device].level
  }

  ghost predicate Faithful(e: map<string, Entry>, s: set<Tree>) {
    forall t :: t in s ==> t.device in e && e[t.device].devType == t.devType
  }

  /** Levels only go up, and only the devices of `s` are touched. */
  ghost predicate Grew(e: map<string, Entry>, e': map<string, Entry>, s: set<Tree>) {
    && (forall d :: d in e ==> d in e' && e[d].level <= e'[d].level)
    && (forall d :: d in e' && !HasDevice(s, d) ==> d in e && e'[d] == e[d])
  }

  /** What flattening the trees of `s` achieves on top of the registry `e`. */
  ghost predicate Lifted(e: map<string, Entry>, e': map<string, Entry>, s: set<Tree>) {
    Rises(e', s) && Faithful(e', s) && Grew(e, e', s)
  }

  ghost predicate AtLevel(e: map<string, Entry>, d: string, level: nat) {
    d in e && level <= e[d].level
  }

  lemma NotAboveItself(t: Tree)
    requires Consistent(Subtrees(t))
    ensures !HasDevice(SubtreesAll(t.holders, |t.holders|), t.device)
  {
    if s :| s in SubtreesAll(t.holders, |t.holders|) && s.device == t.device {
      ProperSubtree(t, s);
    }
  }

  /** The root was written first and is never touched again, so it stays below its holders. */
  lemma RootBelow(e: map<string, Entry>, e': map<string, Entry>, t: Tree, l: nat)
    requires t.device in e ==> e[t.device].level <= l
    requires !HasDevice(SubtreesAll(t.holders, |t.holders|), t.device)
    requires Lifted(e[t.device := Entry(l, t.device, t.devType)], e', SubtreesAll(t.holders, |t.holders|))
    requires forall i :: 0 <= i < |t.holders| ==> AtLevel(e', t.holders[i].device, l + 1)
    ensures Lifted(e, e', Subtrees(t)) && AtLevel(e', t.device, l)
  {
    var above := SubtreesAll(t.holders, |t.holders|);
    var e1 := e[t.device := Entry(l, t.device, t.devType)];
    assert t.device in e1 && e'[t.device] == e1[t.device];
    forall d | d in e' && !HasDevice(Subtrees(t), d) ensures d in e && e'[d] == e[d] {
      assert t in Subtrees(t);
      assert !HasDevice(above, d);
    }
    forall d | d in e ensures d in e' && e[d].level <= e'[d].level {
      assert d in e1;
    }
  }

  lemma GrewTwice(e0: map<string, Entry>, e1: map<string, Entry>, e2: map<string, Entry>, s1: set<Tree>, s2: set<Tree>)
    requires Grew(e0, e1, s1) && Grew(e1, e2, s2)
    ensures Grew(e0, e2, s1 + s2)
  {
    forall d | d in e2 && !HasDevice(s1 + s2, d) ensures d in e0 && e2[d] == e0[d] {
      assert forall t :: t in s1 || t in s2 ==> t in s1 + s2;
      assert !HasDevice(s2, d) && !HasDevice(s1, d);
    }
  }

  /** Flattening `last` leaves the edges of `before` rising: an edge whose lower end moved lies in `last` too. */
  lemma StillRises(e1: map<string, Entry>, e2: map<string, Entry>, before: set<Tree>, last: set<Tree>)
    requires Consistent(before + last)
    requires Rises(e1, before) && Faithful(e1, before)
    requires Rises(e2, last) && Faithful(e2, last) && Grew(e1, e2, last)
    ensures Rises(e2, before + last) && Faithful(e2, before + last)
  {
    forall t | t in before
      ensures t.device in e2 && e2[t.device].devType == t.devType
      ensures forall i :: 0 <= i < |t.holders| ==>
        t.holders[i].device in e2 && e2[t.device].level < e2[t.holders[i].device].level
    {
      if HasDevice(last, t.device) {
        var s :| s in last && s.device == t.device;
        assert s in before + last && t in before + last;
        assert s == t;
      } else {
        assert e2[t.device] == e1[t.device];
      }
    }
  }

  lemma LiftedTwice(e0: map<string, Entry>, e1: map<string, Entry>, e2: map<string, Entry>, s1: set<Tree>,
                    s2: set<Tree>)
    requires Consistent(s1 + s2) && Lifted(e0, e1, s1) && Lifted(e1, e2, s2)
    ensures Lifted(e0, e2, s1 + s2)
  {
    StillRises(e1, e2, s1, s2);
    GrewTwice(e0, e1, e2, s1, s2);
  }

  lemma LevelsKept(e1: map<string, Entry>, e2: map<string, Entry>, last: set<Tree>, ts: seq<Tree>, n: nat, level: nat)
    requires 0 < n <= |ts| && Grew(e1, e2, last) && AtLevel(e2, ts[n - 1].device, level)
    requires forall i :: 0 <= i < n - 1 ==> AtLevel(e1, ts[i].device, level)
    ensures forall i :: 0 <= i < n ==> AtLevel(e2, ts[i].device, level)
  {
    forall i | 0 <= i < n - 1 ensures AtLevel(e2, ts[i].device, level) {
      assert AtLevel(e1, ts[i].device, level);
    }
  }

  lemma {:induction false} FlattenedRises(reg: Registry, t: Tree, level: nat)
    requires Consistent(Subtrees(t))
    ensures Lifted(reg.entries, Flattened(reg, t, level).entries, Subtrees(t))
    ensures AtLevel(Flattened(reg, t, level).entries, t.device, level)
    decreases t, 0
  {
    var l := LevelFor(reg, t, level);
    var reg1 := reg.Put(Entry(l, t.device, t.devType));
    var e' := FlattenedAll(reg1, t.holders, l + 1, |t.holders|).entries;
    assert Consistent(SubtreesAll(t.holders, |t.holders|));
    FlattenedAllRises(reg1, t.holders, l + 1, |t.holders|);
    assert Lifted(reg.entries, e', Subtrees(t)) && AtLevel(e', t.device, l) by {
      NotAboveItself(t);
      RootBelow(reg.entries, e', t, l);
    }
    assert Flattened(reg, t, level).entries == e';
  }

  lemma {:induction false} FlattenedAllRises(reg: Registry, ts: seq<Tree>, level: nat, n: nat)
    requires n <= |ts|
    requires Consistent(SubtreesAll(ts, n))
    ensures Lifted(reg.entries, FlattenedAll(reg, ts, level, n).entries, SubtreesAll(ts, n))
    ensures forall i :: 0 <= i < n ==> AtLevel(FlattenedAll(reg, ts, level, n).entries, ts[i].device, level)
    decreases ts, n
  {
    if n > 0 {
      var before, last := SubtreesAll(ts, n - 1), Subtrees(ts[n - 1]);
      var reg1 := FlattenedAll(reg, ts, level, n - 1);
      assert Consistent(last);
      FlattenedAllRises(reg, ts, level, n - 1);
      FlattenedRises(reg1, ts[n - 1], level);
      LiftedTwice(reg.entries, reg1.entries, FlattenedAll(reg, ts, level, n).entries, before, last);
      LevelsKept(reg1.entries, FlattenedAll(reg, ts, level, n).entries, last, ts, n, level);
    } else {
      assert Lifted(reg.entries, reg.entries, {});
    }
  }

  // ----- The level a device gets -----

  /** The tree from its root on, every stacked copy of a device counted anew. */
  function Preorder(t: Tree): seq<Tree>
    decreases t, 0
  {
    [t] + PreorderAll(t.holders, |t.holders|)
  }

  function PreorderAll(ts: seq<Tree>, n: nat): seq<Tree>
    requires n <= |ts|
    decreases ts, n
  {
    if n == 0 then [] else PreorderAll(ts, n - 1) + Preorder(ts[n - 1])
  }

  /** How many of the trees have something on top. */
  function Loaded(ts: seq<Tree>): nat {
    if ts == [] then 0 else Loaded(ts[..|ts| - 1]) + if ts[|ts| - 1].holders == [] then 0 else 1
  }

  lemma {:induction false} LoadedConcat(a: seq<Tree>, b: seq<Tree>)
    ensures Loaded(a + b) == Loaded(a) + Loaded(b)
  {
    if b == [] {
      assert a + b == a;
    } else {
      var n := |b| - 1;
      LoadedConcat(a, b[..n]);
      assert (a + b)[..|a + b| - 1] == a + b[..n] && (a + b)[|a + b| - 1] == b[n];
    }
  }

  /** The level of a tree is the number of devices in it that have holders. */
  lemma {:induction false} LevelCountsLoaded(t: Tree)
    ensures HtreeLevel(t) == Loaded(Preorder(t))
    decreases t, 0
  {
    LevelSumCountsLoaded(t.holders, |t.holders|);
    assert [t][..0] == [];
    LoadedConcat([t], PreorderAll(t.holders, |t.holders|));
  }

  lemma {:induction false} LevelSumCountsLoaded(ts: seq<Tree>, n: nat)
    requires n <= |ts|
    ensures HtreeLevelSum(ts, n) == Loaded(PreorderAll(ts, n))
    decreases ts, n
  {
    if n > 0 {
      LevelSumCountsLoaded(ts, n - 1);
      LevelCountsLoaded(ts[n - 1]);
      LoadedConcat(PreorderAll(ts, n - 1), Preorder(ts[n - 1]));
    }
  }

  /** What is written for the root stays as it is while its holders are flattened. */
  lemma RootStays(reg: Registry, t: Tree, level: nat)
    requires Consistent(Subtrees(t))
    ensures var e' := Flattened(reg, t, level).entries;
      t.device in e' && e'[t.device] == Entry(LevelFor(reg, t, level), t.device, t.devType)
  {
    var l := LevelFor(reg, t, level);
    var reg1 := reg.Put(Entry(l, t.device, t.devType));
    assert Consistent(SubtreesAll(t.holders, |t.holders|));
    FlattenedAllRises(reg1, t.holders, l + 1, |t.holders|);
    NotAboveItself(t);
    assert t.device in reg1.entries;
  }

  /** A device met for the first time gets the level it is met at, or the number of devices with holders from it on
      if that is larger; one met again goes just above both its old level and the one it is met at. */
  lemma RootLevel(reg: Registry, t: Tree, level: nat)
    requires Consistent(Subtrees(t))
    ensures var e' := Flattened(reg, t, level).entries; var loaded := Loaded(Preorder(t));
      && t.device in e' && e'[t.device].devType == t.devType
      && (t.device !in reg.entries ==> e'[t.device].level == if loaded < level then level else loaded)
      && (t.device in reg.entries ==>
            var was := reg.entries[t.device].level;
            e'[t.device].level == if was < level then level + 1 else was + 1)
  {
    RootStays(reg, t, level);
    LevelCountsLoaded(t);
  }

  /** Rising along edges is rising along every path. */
  lemma {:induction false} RisesTransitively(e: map<string, Entry>, t: Tree, h: Tree)
    requires Rises(e, Subtrees(t)) && Faithful(e, Subtrees(t))
    requires h in SubtreesAll(t.holders, |t.holders|)
    ensures h.device in e && t.device in e && e[t.device].level < e[h.device].level
    decreases t
  {
    ForestMembers(t.holders, |t.holders|, h);
    var i :| 0 <= i < |t.holders| && h in Subtrees(t.holders[i]);
    HolderSubtrees(t, i);
    assert t in Subtrees(t);
    if h != t.holders[i] {
      RisesTransitively(e, t.holders[i], h);
    }
  }

  // ----- From the registry to the plan -----

  lemma AtLeastTotal()
    ensures TotalPreorder(AtLeast)
  {
  }

  predicate DeviceLe(a: Tree, b: Tree) { LexLe(a.device, b.device) }

  lemma ForestOfRoots(ts: seq<Tree>)
    ensures forall s :: s in Forest(ts) <==> exists t :: t in ts && s in Subtrees(t)
  {
    forall s ensures s in Forest(ts) <==> exists t :: t in ts && s in Subtrees(t) {
      ForestMembers(ts, |ts|, s);
      if t :| t in ts && s in Subtrees(t) {
        var i :| 0 <= i < |ts| && ts[i] == t;
        assert s in Subtrees(ts[i]);
      }
    }
  }

  lemma SameForest(a: seq<Tree>, b: seq<Tree>)
    requires multiset(a) == multiset(b)
    ensures Forest(a) == Forest(b)
  {
    PermutationFacts(a, b);
    ForestOfRoots(a);
    ForestOfRoots(b);
  }

  lemma ByDeviceFacts(ts: seq<Tree>)
    ensures multiset(ByDevice(ts)) == multiset(ts)
    ensures Ordered(ByDevice(ts), DeviceLe)
    ensures Forest(ByDevice(ts)) == Forest(ts)
  {
    var le := (a: Tree, b: Tree) => LexLe(a.device, b.device);
    forall a: Tree, b: Tree, c: Tree
      ensures le(a, b) || le(b, a)
      ensures le(a, b) && le(b, c) ==> le(a, c)
    {
      LexTotal(a.device, b.device);
      if le(a, b) && le(b, c) {
        LexTransitive(a.device, b.device, c.device);
      }
    }
    SortPermutes(ts, le);
    SortOrdered(ts, le);
    SameForest(ByDevice(ts), ts);
  }

  function Plan(trees: seq<Tree>): seq<Entry> {
    FlattenedAllValid(EMPTY_REGISTRY, ByDevice(trees), 0, |ByDevice(trees)|);
    Listed(ForestRegistry(trees))
  }

  ghost predicate Before(plan: seq<Entry>, d: string, e: string) {
    exists i, j :: 0 <= i < j < |plan| && plan[i].device == d && plan[j].device == e
  }

  ghost predicate Planned(plan: seq<Entry>, d: string) {
    exists i :: 0 <= i < |plan| && plan[i].device == d
  }

  /** The entries in the order of the registry. */
  ghost function Unsorted(reg: Registry): (raw: seq<Entry>)
    requires reg.Valid()
    ensures |raw| == |reg.order|
    ensures forall i :: 0 <= i < |raw| ==> reg.order[i] in reg.entries && raw[i] == reg.entries[reg.order[i]]
  {
    seq(|reg.order|, i requires 0 <= i < |reg.order| => assert reg.order[i] in reg.order; reg.entries[reg.order[i]])
  }

  lemma UnsortedFacts(reg: Registry)
    requires reg.Valid()
    ensures NoDup(Unsorted(reg))
    ensures forall e :: e in Unsorted(reg) <==> e.device in reg.entries && reg.entries[e.device] == e
  {
    var raw := Unsorted(reg);
    forall i | 0 <= i < |raw| ensures raw[i].device == reg.order[i] {
      assert reg.order[i] in reg.order;
    }
    forall e ensures e in raw <==> e.device in reg.entries && reg.entries[e.device] == e {
      if e.device in reg.entries && reg.entries[e.device] == e {
        assert e.device in reg.order;
        var i :| 0 <= i < |reg.order| && reg.order[i] == e.device;
        assert raw[i] == e;
      }
    }
  }

  lemma ListedIsSorted(reg: Registry)
    requires reg.Valid()
    ensures Listed(reg) == Sort(Unsorted(reg), AtLeast)
  {
    assert Unsorted(reg) == seq(|reg.order|, i requires 0 <= i < |reg.order| =>
                                  assert reg.order[i] in reg.order; reg.entries[reg.order[i]]);
  }

  lemma ListedSorts(reg: Registry)
    requires reg.Valid()
    ensures multiset(Listed(reg)) == multiset(Unsorted(reg)) && Ordered(Listed(reg), AtLeast)
  {
    ListedIsSorted(reg);
    AtLeastTotal();
    SortPermutes(Unsorted(reg), AtLeast);
    SortOrdered(Unsorted(reg), AtLeast);
  }

  /** The listing holds exactly the registry's entries, once each, in descending order. */
  lemma ListedFacts(reg: Registry)
    requires reg.Valid()
    ensures var plan := Listed(reg);
      && |plan| == |reg.order|
      && Ordered(plan, AtLeast)
      && (forall i, j :: 0 <= i < j < |plan| ==> plan[i].device != plan[j].device)
      && (forall e :: e in plan <==> e.device in reg.entries && reg.entries[e.device] == e)
  {
    var raw, plan := Unsorted(reg), Listed(reg);
    UnsortedFacts(reg);
    ListedSorts(reg);
    PermutationFacts(raw, plan);
    PermutationNoDup(raw, plan);
    forall i, j | 0 <= i < j < |plan| ensures plan[i].device != plan[j].device {
      assert plan[i] in plan && plan[j] in plan;
      assert plan[i] != plan[j];
    }
  }

  lemma ForestRegistryFacts(trees: seq<Tree>)
    requires Consistent(Forest(trees))
    ensures var reg := ForestRegistry(trees);
      && reg.Valid()
      && Rises(reg.entries, Forest(trees)) && Faithful(reg.entries, Forest(trees))
      && forall d :: d in reg.entries <==> HasDevice(Forest(trees), d)
  {
    var ts := ByDevice(trees);
    ByDeviceFacts(trees);
    FlattenedAllValid(EMPTY_REGISTRY, ts, 0, |ts|);
    FlattenedAllRises(EMPTY_REGISTRY, ts, 0, |ts|);
  }

  /** The plan names every device of the forest exactly once, with its own type. */
  lemma PlanListsEachDeviceOnce(trees: seq<Tree>)
    requires Consistent(Forest(trees))
    ensures var plan := Plan(trees);
      && (forall i, j :: 0 <= i < j < |plan| ==> plan[i].device != plan[j].device)
      && (forall d :: Planned(plan, d) <==> HasDevice(Forest(trees), d))
      && (forall e, t :: e in plan && t in Forest(trees) && e.device == t.device ==> e.devType == t.devType)
  {
    var reg := ForestRegistry(trees);
    ForestRegistryFacts(trees);
    ListedFacts(reg);
    var plan := Plan(trees);
    forall d ensures Planned(plan, d) <==> HasDevice(Forest(trees), d) {
      if HasDevice(Forest(trees), d) {
        assert reg.entries[d] in plan;
      }
      if i :| 0 <= i < |plan| && plan[i].device == d {
        assert plan[i] in plan;
      }
    }
  }

  lemma HigherComesFirst(plan: seq<Entry>, i: nat, j: nat)
    requires Ordered(plan, AtLeast) && i < |plan| && j < |plan|
    requires plan[i].level > plan[j].level
    ensures i < j
  {
    if j < i && AtLeast(plan[j], plan[i]) {
      assert false;
    }
  }

  /** The plan is a topological order: whatever stands above a device, at any height, comes first. */
  lemma PlanClearsHoldersFirst(trees: seq<Tree>, t: Tree, h: Tree)
    requires Consistent(Forest(trees))
    requires t in Forest(trees) && h in SubtreesAll(t.holders, |t.holders|)
    ensures Before(Plan(trees), h.device, t.device)
    ensures !Before(Plan(trees), t.device, h.device)
  {
    var reg := ForestRegistry(trees);
    var plan := Plan(trees);
    ForestRegistryFacts(trees);
    ListedFacts(reg);
    ForestMembers(trees, |trees|, t);
    var k :| 0 <= k < |trees| && t in Subtrees(trees[k]);
    SubtreesTransitive(trees[k], t);
    forall s | s in Subtrees(t) ensures s in Forest(trees) { ForestMembers(trees, |trees|, s); }
    RisesTransitively(reg.entries, t, h);
    var et, eh := reg.entries[t.device], reg.entries[h.device];
    assert et in plan && eh in plan;
    var i, j :| 0 <= i < |plan| && 0 <= j < |plan| && plan[i] == eh && plan[j] == et;
    HigherComesFirst(plan, i, j);
    assert Before(plan, h.device, t.device);
  }

  const CLEARED_IN_ORDER := [Crypt, Raid, Lvm, Bcache, Partition, Disk]

  ghost predicate NotClearedAfter(s: DevType, t: DevType) {
    forall a, b :: 0 <= a < 6 && 0 <= b < 6 && CLEARED_IN_ORDER[a] == s && CLEARED_IN_ORDER[b] == t ==> a <= b
  }

  ghost predicate InPlanOrder(e: Entry, f: Entry) {
    e.level > f.level || (e.level == f.level && NotClearedAfter(e.devType, f.devType))
  }

  lemma AtLeastIs(e: Entry, f: Entry)
    ensures AtLeast(e, f) <==> InPlanOrder(e, f)
  {
    assert CLEARED_IN_ORDER[6 - DevTypeOrder(e.devType)] == e.devType;
    assert CLEARED_IN_ORDER[6 - DevTypeOrder(f.devType)] == f.devType;
  }

  /** The plan runs down the levels, and on one level from crypt and raid to partitions and disks. */
  lemma PlanOrder(trees: seq<Tree>)
    requires Consistent(Forest(trees))
    ensures Ordered(Plan(trees), InPlanOrder)
  {
    var plan := Plan(trees);
    ForestRegistryFacts(trees);
    ListedFacts(ForestRegistry(trees));
    forall i, j | 0 <= i < j < |plan| ensures InPlanOrder(plan[i], plan[j]) {
      AtLeastIs(plan[i], plan[j]);
    }
  }

  lemma RootsInForest(ts: seq<Tree>, t: Tree)
    requires t in ts
    ensures t in Forest(ts)
  {
    ForestMembers(ts, |ts|, t);
    var i :| 0 <= i < |ts| && ts[i] == t;
    assert t in Subtrees(ts[i]);
  }

  /** The plan does not depend on the order in which the trees are handed over, repeated trees included. */
  lemma PlanIgnoresTreeOrder(a: seq<Tree>, b: seq<Tree>)
    requires multiset(a) == multiset(b) && Consistent(Forest(a))
    ensures Plan(a) == Plan(b)
  {
    ByDeviceFacts(a);
    ByDeviceFacts(b);
    var sa, sb := ByDevice(a), ByDevice(b);
    PermutationFacts(sa, a);
    forall x, y | x in sa && y in sa && DeviceLe(x, y) && DeviceLe(y, x) ensures x == y {
      LexTotal(x.device, y.device);
      RootsInForest(a, x);
      RootsInForest(a, y);
    }
    OrderedUnique(sa, sb, DeviceLe);
  }
}
