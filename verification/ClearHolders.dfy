/** From the holders recorded in sysfs to trees, and from the plan to the shutdown run. */
module ClearHolders {
  import opened ShutdownPlan
  import opened ShutdownOrder

  /** What sysfs says of one device: its type, its name, and the devices directly on top of it. */
  datatype Dev = Dev(devType: DevType, name: string, holders: seq<string>)

  type Graph = map<string, Dev>

  /** No device stands, through its holders, on itself. */
  ghost predicate Ranked(g: Graph, rank: map<string, nat>) {
    forall d, i :: d in g && 0 <= i < |g[d].holders| ==>
      && d in rank && g[d].holders[i] in g && g[d].holders[i] in rank
      && rank[g[d].holders[i]] < rank[d]
  }

  function GenTree(g: Graph, ghost rank: map<string, nat>, d: string): Tree
    requires Ranked(g, rank) && d in g
    decreases if d in rank then rank[d] else 0
  {
    var hs := g[d].holders;
    Node(d, g[d].devType, g[d].name, seq(|hs|, i requires 0 <= i < |hs| => GenTree(g, rank, hs[i])))
  }

  function GenTrees(g: Graph, ghost rank: map<string, nat>, paths: seq<string>): seq<Tree>
    requires Ranked(g, rank) && forall p :: p in paths ==> p in g
  {
    seq(|paths|, i requires 0 <= i < |paths| => assert paths[i] in paths; GenTree(g, rank, paths[i]))
  }

  lemma {:induction false} GenSubtrees(g: Graph, rank: map<string, nat>, d: string, s: Tree)
    requires Ranked(g, rank) && d in g && s in Subtrees(GenTree(g, rank, d))
    ensures s.device in g && s == GenTree(g, rank, s.device)
    decreases if d in rank then rank[d] else 0
  {
    var t := GenTree(g, rank, d);
    if s != t {
      ForestMembers(t.holders, |t.holders|, s);
      var i :| 0 <= i < |t.holders| && s in Subtrees(t.holders[i]);
      GenSubtrees(g, rank, g[d].holders[i], s);
    }
  }

  /** Generated forests are consistent: a device is expanded the same way wherever it is met. */
  lemma GenConsistent(g: Graph, rank: map<string, nat>, paths: seq<string>)
    requires Ranked(g, rank) && forall p :: p in paths ==> p in g
    ensures var f := Forest(GenTrees(g, rank, paths));
      Consistent(f) && forall s :: s in f ==> s.device in g && s == GenTree(g, rank, s.device)
  {
    var ts := GenTrees(g, rank, paths);
    forall s | s in Forest(ts) ensures s.device in g && s == GenTree(g, rank, s.device) {
      ForestMembers(ts, |ts|, s);
      var i :| 0 <= i < |ts| && s in Subtrees(ts[i]);
      assert paths[i] in paths;
      GenSubtrees(g, rank, paths[i], s);
    }
  }

  /** `d` is one of `paths`, or is reached from them by going up to a holder at most `n` times. */
  ghost predicate Reached(g: Graph, paths: seq<string>, d: string, n: nat)
    decreases n
  {
    d in g && (d in paths || (n > 0 && exists b, i ::
      Reached(g, paths, b, n - 1) && 0 <= i < |g[b].holders| && g[b].holders[i] == d))
  }

  ghost predicate RestsOn(g: Graph, paths: seq<string>, d: string) {
    exists n: nat :: Reached(g, paths, d, n)
  }

  lemma HolderInForest(ts: seq<Tree>, t: Tree, i: nat)
    requires t in Forest(ts) && i < |t.holders|
    ensures t.holders[i] in Forest(ts) && t.holders[i] in SubtreesAll(t.holders, |t.holders|)
  {
    var h := t.holders[i];
    assert h in Subtrees(h);
    ForestMembers(t.holders, |t.holders|, h);
    ForestMembers(ts, |ts|, t);
    var k :| 0 <= k < |ts| && t in Subtrees(ts[k]);
    SubtreesTransitive(ts[k], t);
    ForestMembers(ts, |ts|, h);
  }

  lemma {:induction false} ReachedInForest(g: Graph, rank: map<string, nat>, paths: seq<string>, d: string, n: nat)
    requires Ranked(g, rank) && (forall p :: p in paths ==> p in g) && Reached(g, paths, d, n)
    ensures GenTree(g, rank, d) in Forest(GenTrees(g, rank, paths))
    decreases n
  {
    var ts := GenTrees(g, rank, paths);
    if d in paths {
      var i :| 0 <= i < |paths| && paths[i] == d;
      assert ts[i] == GenTree(g, rank, d);
      RootsInForest(ts, ts[i]);
    } else {
      var b, i :| Reached(g, paths, b, n - 1) && 0 <= i < |g[b].holders| && g[b].holders[i] == d;
      ReachedInForest(g, rank, paths, b, n - 1);
      HolderInForest(ts, GenTree(g, rank, b), i);
    }
  }

  lemma {:induction false} SubtreeReached(g: Graph, rank: map<string, nat>, paths: seq<string>, d: string, n: nat,
                                          s: Tree) returns (m: nat)
    requires Ranked(g, rank) && Reached(g, paths, d, n) && s in Subtrees(GenTree(g, rank, d))
    ensures Reached(g, paths, s.device, m)
    decreases if d in rank then rank[d] else 0
  {
    var t := GenTree(g, rank, d);
    if s == t {
      m := n;
    } else {
      ForestMembers(t.holders, |t.holders|, s);
      var i :| 0 <= i < |t.holders| && s in Subtrees(t.holders[i]);
      assert Reached(g, paths, g[d].holders[i], n + 1);
      m := SubtreeReached(g, rank, paths, g[d].holders[i], n + 1, s);
    }
  }

  lemma DevicesReached(g: Graph, rank: map<string, nat>, paths: seq<string>, d: string)
    requires Ranked(g, rank) && forall p :: p in paths ==> p in g
    ensures HasDevice(Forest(GenTrees(g, rank, paths)), d) <==> RestsOn(g, paths, d)
  {
    var ts := GenTrees(g, rank, paths);
    if n: nat :| Reached(g, paths, d, n) {
      ReachedInForest(g, rank, paths, d, n);
      assert GenTree(g, rank, d).device == d;
    }
    if s :| s in Forest(ts) && s.device == d {
      ForestMembers(ts, |ts|, s);
      var i :| 0 <= i < |ts| && s in Subtrees(ts[i]);
      assert paths[i] in paths && Reached(g, paths, paths[i], 0);
      var m := SubtreeReached(g, rank, paths, paths[i], 0, s);
    }
  }

  /** The plan for `paths` covers exactly the devices reached from them, each after all of its holders. */
  lemma PlanFollowsSysfs(g: Graph, rank: map<string, nat>, paths: seq<string>)
    requires Ranked(g, rank) && forall p :: p in paths ==> p in g
    ensures var plan := Plan(GenTrees(g, rank, paths));
      && (forall i, j :: 0 <= i < j < |plan| ==> plan[i].device != plan[j].device)
      && (forall d :: Planned(plan, d) <==> RestsOn(g, paths, d))
      && (forall d, i :: RestsOn(g, paths, d) && d in g && 0 <= i < |g[d].holders| ==> Before(plan, g[d].holders[i], d))
  {
    var ts := GenTrees(g, rank, paths);
    GenConsistent(g, rank, paths);
    PlanListsEachDeviceOnce(ts);
    forall d ensures HasDevice(Forest(ts), d) <==> RestsOn(g, paths, d) {
      DevicesReached(g, rank, paths, d);
    }
    forall d, i | RestsOn(g, paths, d) && d in g && 0 <= i < |g[d].holders|
      ensures Before(Plan(ts), g[d].holders[i], d)
    {
      var n: nat :| Reached(g, paths, d, n);
      ReachedInForest(g, rank, paths, d, n);
      var t := GenTree(g, rank, d);
      HolderInForest(ts, t, i);
      assert t.holders[i].device == g[d].holders[i];
      PlanClearsHoldersFirst(ts, t, t.holders[i]);
    }
  }

  // ----- The run over the plan -----

  datatype Handler = ShutdownBcache | ShutdownLvm | ShutdownMdadm | ShutdownCrypt | WipeSuperblock

  function HandlerOf(t: DevType): Handler {
    match t
    case Disk => WipeSuperblock
    case Partition => WipeSuperblock
    case Bcache => ShutdownBcache
    case Lvm => ShutdownLvm
    case Raid => ShutdownMdadm
    case Crypt => ShutdownCrypt
  }

  const DATA_DESTROYING_HANDLERS := [WipeSuperblock]

  datatype Turn = Preserved | Missing | ShutDown(handler: Handler)

  /** Turn `i`: a disk or partition is left alone where data is to be kept, and wiped otherwise; whatever else is
      still there gets the shutdown of its type in either case. Only shutdowns change what is present. */
  ghost predicate TurnTaken(plan: seq<Entry>, tryPreserve: bool, shut: (set<string>, string) -> set<string>,
                            turns: seq<Turn>, trace: seq<set<string>>, i: nat)
    requires i < |plan| <= |turns| && |plan| < |trace|
  {
    var typ, there := plan[i].devType, plan[i].device in trace[i];
    && (turns[i] == Preserved <==> tryPreserve && typ in {Disk, Partition})
    && (turns[i] == ShutDown(WipeSuperblock) <==> !tryPreserve && there && typ in {Disk, Partition})
    && (turns[i] == ShutDown(ShutdownBcache) <==> there && typ == Bcache)
    && (turns[i] == ShutDown(ShutdownLvm) <==> there && typ == Lvm)
    && (turns[i] == ShutDown(ShutdownMdadm) <==> there && typ == Raid)
    && (turns[i] == ShutDown(ShutdownCrypt) <==> there && typ == Crypt)
    && trace[i + 1] == if turns[i].ShutDown? then shut(trace[i], plan[i].device) else trace[i]
  }

  ghost predicate RunTaken(plan: seq<Entry>, tryPreserve: bool, shut: (set<string>, string) -> set<string>,
                           turns: seq<Turn>, trace: seq<set<string>>)
  {
    && |turns| == |plan| && |trace| == |plan| + 1
    && forall i :: 0 <= i < |plan| ==> TurnTaken(plan, tryPreserve, shut, turns, trace, i)
  }

  /** `shut` stands for the handlers: the devices present after shutting one down. */
  method RunPlan(plan: seq<Entry>, tryPreserve: bool, present: set<string>, shut: (set<string>, string) -> set<string>)
    returns (turns: seq<Turn>, ghost trace: seq<set<string>>)
    ensures RunTaken(plan, tryPreserve, shut, turns, trace) && trace[0] == present
    ensures |turns| == |plan|
    ensures forall i :: 0 <= i < |plan| ==>
      (turns[i] == Preserved <==> tryPreserve && plan[i].devType in {Disk, Partition})
  {
    var now := present;
    turns, trace := [], [present];
    for i := 0 to |plan|
      invariant |trace| == i + 1 && trace[0] == present && trace[i] == now
      invariant RunTaken(plan[..i], tryPreserve, shut, turns, trace)
    {
      ghost var past, turnsBefore, traceBefore := plan[..i], turns, trace;
      var handler := HandlerOf(plan[i].devType);
      if tryPreserve && handler in DATA_DESTROYING_HANDLERS {
        turns := turns + [Preserved];
      } else if plan[i].device in now {
        turns := turns + [ShutDown(handler)];
        now := shut(now, plan[i].device);
      } else {
        turns := turns + [Missing];
      }
      trace := trace + [now];
      ghost var taken := past + [plan[i]];
      forall k | 0 <= k < i ensures TurnTaken(taken, tryPreserve, shut, turns, trace, k) {
        assert TurnTaken(past, tryPreserve, shut, turnsBefore, traceBefore, k);
      }
      assert plan[..i + 1] == taken;
    }
    assert plan[..|plan|] == plan;
    forall i | 0 <= i < |plan| ensures turns[i] == Preserved <==> tryPreserve && plan[i].devType in {Disk, Partition} {
      assert TurnTaken(plan, tryPreserve, shut, turns, trace, i);
    }
  }

  /** Handlers bring no device back, and all but those of disks and partitions make their own device go. */
  ghost predicate HandlersRemove(g: Graph, shut: (set<string>, string) -> set<string>) {
    && (forall present, d :: shut(present, d) <= present)
    && (forall present, d :: d in g && g[d].devType !in {Disk, Partition} ==> d !in shut(present, d))
  }

  lemma {:induction false} PresentShrinks(g: Graph, plan: seq<Entry>, tryPreserve: bool,
                                          shut: (set<string>, string) -> set<string>, turns: seq<Turn>,
                                          trace: seq<set<string>>, i: nat, j: nat)
    requires HandlersRemove(g, shut) && RunTaken(plan, tryPreserve, shut, turns, trace) && i <= j <= |plan|
    ensures trace[j] <= trace[i]
  {
    if i < j {
      PresentShrinks(g, plan, tryPreserve, shut, turns, trace, i, j - 1);
      assert TurnTaken(plan, tryPreserve, shut, turns, trace, j - 1);
    }
  }

  /** Once a device has had its turn it is gone, unless it is a disk or a partition. */
  lemma GoneAfterTurn(g: Graph, plan: seq<Entry>, tryPreserve: bool, shut: (set<string>, string) -> set<string>,
                      turns: seq<Turn>, trace: seq<set<string>>, i: nat, j: nat)
    requires HandlersRemove(g, shut) && RunTaken(plan, tryPreserve, shut, turns, trace) && i < j <= |plan|
    requires plan[i].device in g && plan[i].devType == g[plan[i].device].devType
    requires plan[i].devType !in {Disk, Partition}
    ensures plan[i].device !in trace[j]
  {
    assert TurnTaken(plan, tryPreserve, shut, turns, trace, i);
    PresentShrinks(g, plan, tryPreserve, shut, turns, trace, i + 1, j);
  }

  lemma HoldersHadTheirTurn(g: Graph, rank: map<string, nat>, paths: seq<string>, k: nat)
    requires Ranked(g, rank) && forall p :: p in paths ==> p in g
    requires k < |Plan(GenTrees(g, rank, paths))|
    ensures var plan := Plan(GenTrees(g, rank, paths)); var d := plan[k].device;
      && d in g && plan[k].devType == g[d].devType
      && forall h :: h in g[d].holders ==> exists j :: 0 <= j < k && plan[j].device == h
  {
    var ts := GenTrees(g, rank, paths);
    var plan := Plan(ts);
    var d := plan[k].device;
    GenConsistent(g, rank, paths);
    PlanFollowsSysfs(g, rank, paths);
    PlanListsEachDeviceOnce(ts);
    assert Planned(plan, d);
    DevicesReached(g, rank, paths, d);
    var n: nat :| Reached(g, paths, d, n);
    ReachedInForest(g, rank, paths, d, n);
    assert plan[k] in plan && GenTree(g, rank, d).device == d;
    forall h | h in g[d].holders ensures exists j :: 0 <= j < k && plan[j].device == h {
      var i :| 0 <= i < |g[d].holders| && g[d].holders[i] == h;
      assert Before(plan, h, d);
    }
  }

  /** The `k`-th turn is that of a device with its type, and all its holders have had their turn before. */
  ghost predicate HoldersDone(g: Graph, plan: seq<Entry>, k: nat)
    requires k < |plan|
  {
    var d := plan[k].device;
    && d in g && plan[k].devType == g[d].devType
    && forall h :: h in g[d].holders ==> exists j :: 0 <= j < k && plan[j].device == h
  }

  /** Nothing that holds `d` is present but disks and partitions. */
  ghost predicate HoldersGone(g: Graph, d: string, present: set<string>) {
    d in g && forall h :: h in g[d].holders && h in g && h in present ==> g[h].devType in {Disk, Partition}
  }

  lemma HoldersGoneAt(g: Graph, rank: map<string, nat>, paths: seq<string>, tryPreserve: bool,
                      shut: (set<string>, string) -> set<string>, turns: seq<Turn>, trace: seq<set<string>>, k: nat)
    requires Ranked(g, rank) && (forall p :: p in paths ==> p in g) && HandlersRemove(g, shut)
    requires RunTaken(Plan(GenTrees(g, rank, paths)), tryPreserve, shut, turns, trace)
    requires k < |Plan(GenTrees(g, rank, paths))|
    ensures HoldersGone(g, Plan(GenTrees(g, rank, paths))[k].device, trace[k])
  {
    var plan := Plan(GenTrees(g, rank, paths));
    HoldersHadTheirTurn(g, rank, paths, k);
    var d := plan[k].device;
    forall h | h in g[d].holders && h in g && h in trace[k] ensures g[h].devType in {Disk, Partition} {
      var j :| 0 <= j < k && plan[j].device == h;
      HoldersHadTheirTurn(g, rank, paths, j);
      if g[h].devType !in {Disk, Partition} {
        GoneAfterTurn(g, plan, tryPreserve, shut, turns, trace, j, k);
      }
    }
  }

  /** After the run, all that is left of what rests on the base paths is disks and partitions. */
  ghost predicate Cleared(g: Graph, paths: seq<string>, present: set<string>) {
    forall d :: RestsOn(g, paths, d) && d in g && d in present ==> g[d].devType in {Disk, Partition}
  }

  lemma ClearedAtTheEnd(g: Graph, rank: map<string, nat>, paths: seq<string>, tryPreserve: bool,
                        shut: (set<string>, string) -> set<string>, turns: seq<Turn>, trace: seq<set<string>>)
    requires Ranked(g, rank) && (forall p :: p in paths ==> p in g) && HandlersRemove(g, shut)
    requires RunTaken(Plan(GenTrees(g, rank, paths)), tryPreserve, shut, turns, trace)
    ensures Cleared(g, paths, trace[|trace| - 1])
  {
    var plan := Plan(GenTrees(g, rank, paths));
    PlanFollowsSysfs(g, rank, paths);
    forall d | RestsOn(g, paths, d) && d in g && d in trace[|plan|] ensures g[d].devType in {Disk, Partition} {
      assert Planned(plan, d);
      var i :| 0 <= i < |plan| && plan[i].device == d;
      HoldersHadTheirTurn(g, rank, paths, i);
      if g[d].devType !in {Disk, Partition} {
        GoneAfterTurn(g, plan, tryPreserve, shut, turns, trace, i, |plan|);
      }
    }
  }

  /** A whole run from base paths: each device has its turn after all of its holders. If the handlers
      do remove what they shut down, its holders are gone by then but for disks and partitions, and so is everything
      above the base paths at the end. */
  method ClearAll(g: Graph, ghost rank: map<string, nat>, paths: seq<string>, tryPreserve: bool,
                  present: set<string>, shut: (set<string>, string) -> set<string>)
    returns (plan: seq<Entry>, turns: seq<Turn>, ghost trace: seq<set<string>>)
    requires Ranked(g, rank) && forall p :: p in paths ==> p in g
    ensures RunTaken(plan, tryPreserve, shut, turns, trace) && trace[0] == present
    ensures forall d :: RestsOn(g, paths, d) <==> Planned(plan, d)
    ensures forall k :: 0 <= k < |plan| ==>
      HoldersDone(g, plan, k) && (tryPreserve && turns[k].ShutDown? ==> g[plan[k].device].devType !in {Disk, Partition})
    ensures HandlersRemove(g, shut) ==>
      && Cleared(g, paths, trace[|plan|])
      && forall k :: 0 <= k < |plan| && turns[k].ShutDown? ==> HoldersGone(g, plan[k].device, trace[k])
  {
    var trees := GenTrees(g, rank, paths);
    plan := PlanShutdown(trees);
    PlanFollowsSysfs(g, rank, paths);
    turns, trace := RunPlan(plan, tryPreserve, present, shut);
    forall k | 0 <= k < |plan|
      ensures HoldersDone(g, plan, k)
      ensures tryPreserve && turns[k].ShutDown? ==> g[plan[k].device].devType !in {Disk, Partition}
    {
      HoldersHadTheirTurn(g, rank, paths, k);
      assert TurnTaken(plan, tryPreserve, shut, turns, trace, k);
    }
    if HandlersRemove(g, shut) {
      ClearedAtTheEnd(g, rank, paths, tryPreserve, shut, turns, trace);
      forall k | 0 <= k < |plan| ensures HoldersGone(g, plan[k].device, trace[k]) {
        HoldersGoneAt(g, rank, paths, tryPreserve, shut, turns, trace, k);
      }
    }
  }
}
