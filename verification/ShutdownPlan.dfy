/** The shutdown planner: a forest of storage holders is flattened into a registry of
    levels, and the devices are then listed from the highest level down. */
module ShutdownPlan {
  import opened Sorting

  datatype DevType = Disk | Partition | Bcache | Lvm | Raid | Crypt

  datatype Tree = Node(device: string, devType: DevType, name: string, holders: seq<Tree>)

  datatype Entry = Entry(level: nat, device: string, devType: DevType)

  /** The registry is a dict, so it also remembers the order of first insertion. */
  datatype Registry = Registry(order: seq<string>, entries: map<string, Entry>) {
    function Put(e: Entry): Registry {
      Registry(if e.device in entries then order else order + [e.device], entries[e.device := e])
    }

    ghost predicate Valid() {
      && NoDup(order)
      && (forall d :: d in order <==> d in entries)
      && (forall d :: d in entries ==> entries[d].device == d)
    }
  }

  const EMPTY_REGISTRY := Registry([], map[])

  // ----- The plan as a function of the forest -----

  function HtreeLevel(t: Tree): nat
    decreases t, 0
  {
    if |t.holders| == 0 then 0 else 1 + HtreeLevelSum(t.holders, |t.holders|)
  }

  function HtreeLevelSum(ts: seq<Tree>, n: nat): nat
    requires n <= |ts|
    decreases ts, n
  {
    if n == 0 then 0 else HtreeLevelSum(ts, n - 1) + HtreeLevel(ts[n - 1])
  }

  function Max(a: nat, b: nat): nat { if a < b then b else a }

  function LevelFor(reg: Registry, t: Tree, level: nat): nat {
    if t.device in reg.entries then Max(reg.entries[t.device].level, level) + 1
    else Max(HtreeLevel(t), level)
  }

  function Flattened(reg: Registry, t: Tree, level: nat): Registry
    decreases t, 0
  {
    var l := LevelFor(reg, t, level);
    FlattenedAll(reg.Put(Entry(l, t.device, t.devType)), t.holders, l + 1, |t.holders|)
  }

  /** The first `n` trees of `ts`, flattened one after the other. */
  function FlattenedAll(reg: Registry, ts: seq<Tree>, level: nat, n: nat): Registry
    requires n <= |ts|
    decreases ts, n
  {
    if n == 0 then reg else Flattened(FlattenedAll(reg, ts, level, n - 1), ts[n - 1], level)
  }

  function DevTypeOrder(t: DevType): nat {
    match t
    case Disk => 1
    case Partition => 2
    case Bcache => 3
    case Lvm => 4
    case Raid => 5
    case Crypt => 6
  }

  predicate AtLeast(e: Entry, f: Entry) {
    e.level > f.level || (e.level == f.level && DevTypeOrder(e.devType) >= DevTypeOrder(f.devType))
  }

  function Listed(reg: Registry): seq<Entry>
    requires reg.Valid()
  {
    var raw := seq(|reg.order|, i requires 0 <= i < |reg.order| =>
                     assert reg.order[i] in reg.order; reg.entries[reg.order[i]]);
    Sort(raw, AtLeast)
  }

  function ByDevice(ts: seq<Tree>): seq<Tree> {
    Sort(ts, (a: Tree, b: Tree) => LexLe(a.device, b.device))
  }

  function ForestRegistry(trees: seq<Tree>): Registry {
    var ts := ByDevice(trees);
    FlattenedAll(EMPTY_REGISTRY, ts, 0, |ts|)
  }

  // ----- The planner itself -----

  class Planner {
    var reg: Registry

    constructor ()
      ensures reg == EMPTY_REGISTRY
    {
      reg := EMPTY_REGISTRY;
    }

    method Flatten(tree: Tree, level: nat)
      modifies this
      ensures reg == Flattened(old(reg), tree, level)
      decreases tree
    {
      var l := HtreeLevel(tree);
      if tree.device in reg.entries {
        l := Max(reg.entries[tree.device].level, level) + 1;
      } else {
        l := Max(l, level);
      }
      reg := reg.Put(Entry(l, tree.device, tree.devType));
      ghost var start := reg;
      for i := 0 to |tree.holders|
        invariant reg == FlattenedAll(start, tree.holders, l + 1, i)
      {
        Flatten(tree.holders[i], l + 1);
      }
    }
  }

  lemma {:induction false} FlattenedValid(reg: Registry, t: Tree, level: nat)
    requires reg.Valid()
    ensures Flattened(reg, t, level).Valid()
    decreases t, 0
  {
    var l := LevelFor(reg, t, level);
    FlattenedAllValid(reg.Put(Entry(l, t.device, t.devType)), t.holders, l + 1, |t.holders|);
  }

  lemma {:induction false} FlattenedAllValid(reg: Registry, ts: seq<Tree>, level: nat, n: nat)
    requires n <= |ts| && reg.Valid()
    ensures FlattenedAll(reg, ts, level, n).Valid()
    decreases ts, n
  {
    if n > 0 {
      FlattenedAllValid(reg, ts, level, n - 1);
      FlattenedValid(FlattenedAll(reg, ts, level, n - 1), ts[n - 1], level);
    }
  }

  method PlanShutdown(trees: seq<Tree>) returns (plan: seq<Entry>)
    ensures ForestRegistry(trees).Valid() && plan == Listed(ForestRegistry(trees))
  {
    var ts := ByDevice(trees);
    var planner := new Planner();
    for i := 0 to |ts|
      invariant planner.reg == FlattenedAll(EMPTY_REGISTRY, ts, 0, i)
    {
      planner.Flatten(ts[i], 0);
    }
    FlattenedAllValid(EMPTY_REGISTRY, ts, 0, |ts|);
    plan := Listed(planner.reg);
  }

  // ----- Subtrees, and forests in which a device always carries the same tree -----

  ghost function Subtrees(t: Tree): set<Tree>
    decreases t, 0
  {
    {t} + SubtreesAll(t.holders, |t.holders|)
  }

  ghost function SubtreesAll(ts: seq<Tree>, n: nat): set<Tree>
    requires n <= |ts|
    decreases ts, n
  {
    if n == 0 then {} else SubtreesAll(ts, n - 1) + Subtrees(ts[n - 1])
  }

  ghost function Forest(ts: seq<Tree>): set<Tree> { SubtreesAll(ts, |ts|) }

  ghost predicate Consistent(s: set<Tree>) {
    forall a, b :: a in s && b in s && a.device == b.device ==> a == b
  }

  ghost predicate HasDevice(s: set<Tree>, d: string) {
    exists t :: t in s && t.device == d
  }

  lemma {:induction false} ForestMembers(ts: seq<Tree>, n: nat, s: Tree)
    requires n <= |ts|
    ensures s in SubtreesAll(ts, n) <==> exists i :: 0 <= i < n && s in Subtrees(ts[i])
  {
    if n > 0 {
      ForestMembers(ts, n - 1, s);
      if s in SubtreesAll(ts, n) && s !in SubtreesAll(ts, n - 1) {
        assert s in Subtrees(ts[n - 1]);
      }
    }
  }

  lemma HolderSubtrees(t: Tree, i: nat)
    requires i < |t.holders|
    ensures Subtrees(t.holders[i]) <= Subtrees(t)
  {
    forall s | s in Subtrees(t.holders[i]) ensures s in Subtrees(t) {
      ForestMembers(t.holders, |t.holders|, s);
    }
  }

  lemma {:induction false} SubtreesTransitive(t: Tree, s: Tree)
    requires s in Subtrees(t)
    ensures Subtrees(s) <= Subtrees(t)
    decreases t
  {
    if s != t {
      ForestMembers(t.holders, |t.holders|, s);
      var i :| 0 <= i < |t.holders| && s in Subtrees(t.holders[i]);
      SubtreesTransitive(t.holders[i], s);
      HolderSubtrees(t, i);
    }
  }

  /** A proper subtree is a smaller value, so a tree never contains itself. */
  lemma {:induction false} ProperSubtree(t: Tree, s: Tree)
    requires s in SubtreesAll(t.holders, |t.holders|)
    ensures s < t && s != t
    decreases t
  {
    ForestMembers(t.holders, |t.holders|, s);
    var i :| 0 <= i < |t.holders| && s in Subtrees(t.holders[i]);
    if s != t.holders[i] {
      ProperSubtree(t.holders[i], s);
    }
  }
}
