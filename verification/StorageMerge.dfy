/** Merging configuration trees into one list: the registry of levels, and the place of every item. */
module StorageMerge {
  import opened Wrappers
  import opened Sorting
  import opened StorageDeps
  import opened StorageOrder
  import opened StorageSort
  import opened StorageNames

  lemma ElementsSnoc(xs: seq<string>, x: string)
    ensures Elements(xs + [x]) == Elements(xs) + {x}
    ensures x in xs ==> Elements(xs) == Elements(xs) + {x}
  {
  }

  /** The tree's keys, the item itself first, each dependency where it was first met. */
  method GetConfigTree(cfg: Config, ghost rank: map<string, nat>, id: string) returns (r: Result<seq<string>, DepError>)
    requires cfg.Valid() && Ranked(cfg, rank) && id in cfg.items
    ensures r.Ok? <==> FindDeps(cfg, rank, id).Ok?
    ensures r.Ok? ==> r.value != [] && r.value[0] == id && NoDup(r.value)
    ensures r.Ok? ==> Elements(r.value) == {id} + Elements(FindDeps(cfg, rank, id).value)
  {
    var found := FindDeps(cfg, rank, id);
    if found.Err? {
      return Err(found.error);
    }
    var deps := found.value;
    var keys := [id];
    for i := 0 to |deps|
      invariant keys != [] && keys[0] == id && NoDup(keys)
      invariant Elements(keys) == {id} + Elements(deps[..i])
    {
      assert deps[..i + 1] == deps[..i] + [deps[i]];
      ElementsSnoc(deps[..i], deps[i]);
      ElementsSnoc(keys, deps[i]);
      if deps[i] !in keys {
        keys := keys + [deps[i]];
      }
    }
    assert deps[..|deps|] == deps;
    r := Ok(keys);
  }

  lemma {:induction false} NoDupSize(xs: seq<string>)
    requires NoDup(xs)
    ensures |Elements(xs)| == |xs|
  {
    if xs != [] {
      var init, last := xs[..|xs| - 1], xs[|xs| - 1];
      NoDupSize(init);
      assert last !in init;
      assert Elements(xs) == Elements(init) + {last};
    }
  }

  // ----- The registry -----

  /** Where an id first stands in a list, or its length. */
  function Place(ids: seq<string>, id: string): (n: nat)
    ensures n <= |ids| && (n < |ids| ==> ids[n] == id) && forall j :: 0 <= j < n ==> ids[j] != id
  {
    if ids == [] || ids[0] == id then 0 else 1 + Place(ids[1..], id)
  }

  function ByPlace(ids: seq<string>): Item -> nat { (x: Item) => Place(ids, x.id) }

  lemma PlaceWithin(ids: seq<string>, id: string)
    ensures id in ids <==> Place(ids, id) < |ids|
  {
  }

  /** Every tree holds at least its top item, which the configuration knows. */
  ghost predicate Headed(cfg: Config, trees: seq<seq<string>>) {
    forall i :: 0 <= i < |trees| ==> trees[i] != [] && trees[i][0] in cfg.items
  }

  /** The top items of the trees, in order. */
  ghost function Tops(cfg: Config, trees: seq<seq<string>>): (tops: seq<string>)
    requires Headed(cfg, trees)
    ensures |tops| == |trees| && forall i :: 0 <= i < |trees| ==> tops[i] == trees[i][0]
  {
    seq(|trees|, i requires 0 <= i < |trees| => trees[i][0])
  }

  function WithTree(cfg: Config, reg: Registry, tree: seq<string>): Registry
    requires tree != [] && tree[0] in cfg.items
  {
    if tree[0] in reg.levels then reg
    else Registry(reg.order + [cfg.items[tree[0]]], reg.levels[tree[0] := |tree|])
  }

  /** The registry is filled one tree at a time; a tree whose top item is there already is dropped. */
  function RegistryAfter(cfg: Config, trees: seq<seq<string>>, n: nat): Registry
    requires n <= |trees| && Headed(cfg, trees)
  {
    if n == 0 then Registry([], map[]) else WithTree(cfg, RegistryAfter(cfg, trees, n - 1), trees[n - 1])
  }

  /** The id has a level once one of the first `n` trees is headed by it: the size of the first such tree. */
  ghost predicate LevelledAt(cfg: Config, trees: seq<seq<string>>, n: nat, levels: map<string, nat>, id: string)
    requires n <= |trees| && Headed(cfg, trees)
  {
    var p := Place(Tops(cfg, trees), id);
    (id in levels <==> p < n) && (id in levels ==> levels[id] == |trees[p]|)
  }

  /** The levels after `n` trees. */
  ghost predicate Levelled(cfg: Config, trees: seq<seq<string>>, n: nat, levels: map<string, nat>)
    requires n <= |trees| && Headed(cfg, trees)
  {
    forall id :: LevelledAt(cfg, trees, n, levels, id)
  }

  lemma PlaceNext(ids: seq<string>, n: nat, id: string)
    requires n < |ids|
    ensures Place(ids, id) < n + 1 <==> Place(ids, id) < n || (id == ids[n] && Place(ids, id) == n)
    ensures Place(ids, ids[n]) <= n
  {
  }

  lemma LevelledNext(cfg: Config, trees: seq<seq<string>>, n: nat, reg: Registry)
    requires n < |trees| && Headed(cfg, trees) && Levelled(cfg, trees, n, reg.levels)
    ensures Levelled(cfg, trees, n + 1, WithTree(cfg, reg, trees[n]).levels)
    ensures trees[n][0] !in reg.levels ==> Place(Tops(cfg, trees), trees[n][0]) == n
  {
    var top, levels, next := trees[n][0], WithTree(cfg, reg, trees[n]).levels, n + 1;
    assert LevelledAt(cfg, trees, n, reg.levels, top);
    PlaceNext(Tops(cfg, trees), n, top);
    forall id ensures LevelledAt(cfg, trees, next, levels, id) {
      assert LevelledAt(cfg, trees, n, reg.levels, id);
      PlaceNext(Tops(cfg, trees), n, id);
    }
  }

  lemma {:induction false} RegisteredLevels(cfg: Config, trees: seq<seq<string>>, n: nat)
    requires n <= |trees| && Headed(cfg, trees)
    ensures Levelled(cfg, trees, n, RegistryAfter(cfg, trees, n).levels)
  {
    if n > 0 {
      RegisteredLevels(cfg, trees, n - 1);
      LevelledNext(cfg, trees, n - 1, RegistryAfter(cfg, trees, n - 1));
    }
  }

  /** The registry holds the items whose ids have a level, each once, in the order in which they first head a tree. */
  ghost predicate Arranged(cfg: Config, tops: seq<string>, reg: Registry) {
    && (forall i, j :: 0 <= i < j < |reg.order| ==> Place(tops, reg.order[i].id) < Place(tops, reg.order[j].id))
    && forall x :: x in reg.order <==> x.id in reg.levels && x.id in cfg.items && cfg.items[x.id] == x
  }

  lemma ArrangedFacts(cfg: Config, tops: seq<string>, reg: Registry)
    requires Arranged(cfg, tops, reg)
    ensures NoDup(reg.order) && Rising(reg.order, ByPlace(tops))
  {
  }

  lemma ArrangedNext(cfg: Config, tops: seq<string>, reg: Registry, x: Item, level: nat)
    requires Arranged(cfg, tops, reg) && x.id !in reg.levels && x.id in cfg.items && cfg.items[x.id] == x
    requires forall y :: y in reg.order ==> Place(tops, y.id) < Place(tops, x.id)
    ensures Arranged(cfg, tops, Registry(reg.order + [x], reg.levels[x.id := level]))
  {
  }

  lemma ArrangedWithTree(cfg: Config, trees: seq<seq<string>>, n: nat, reg: Registry)
    requires cfg.Valid() && n < |trees| && Headed(cfg, trees) && Levelled(cfg, trees, n, reg.levels)
    requires Arranged(cfg, Tops(cfg, trees), reg)
    ensures Arranged(cfg, Tops(cfg, trees), WithTree(cfg, reg, trees[n]))
  {
    var top := trees[n][0];
    if top !in reg.levels {
      LevelledNext(cfg, trees, n, reg);
      forall y | y in reg.order ensures Place(Tops(cfg, trees), y.id) < n {
        assert LevelledAt(cfg, trees, n, reg.levels, y.id);
      }
      ArrangedNext(cfg, Tops(cfg, trees), reg, cfg.items[top], |trees[n]|);
    }
  }

  lemma NoneArranged(cfg: Config, tops: seq<string>)
    ensures Arranged(cfg, tops, Registry([], map[]))
  {
  }

  lemma ArrangedOneMore(cfg: Config, trees: seq<seq<string>>, n: nat)
    requires cfg.Valid() && n < |trees| && Headed(cfg, trees)
    requires Arranged(cfg, Tops(cfg, trees), RegistryAfter(cfg, trees, n))
    ensures Arranged(cfg, Tops(cfg, trees), RegistryAfter(cfg, trees, n + 1))
  {
    RegisteredLevels(cfg, trees, n);
    ArrangedWithTree(cfg, trees, n, RegistryAfter(cfg, trees, n));
  }

  lemma {:induction false} RegisteredAfter(cfg: Config, trees: seq<seq<string>>, n: nat)
    requires cfg.Valid() && n <= |trees| && Headed(cfg, trees)
    ensures Arranged(cfg, Tops(cfg, trees), RegistryAfter(cfg, trees, n))
  {
    if n == 0 {
      NoneArranged(cfg, Tops(cfg, trees));
    } else {
      RegisteredAfter(cfg, trees, n - 1);
      ArrangedOneMore(cfg, trees, n - 1);
    }
  }

  method MergeTrees(cfg: Config, trees: seq<seq<string>>) returns (r: Result<seq<Item>, DepError>)
    requires cfg.Valid() && Headed(cfg, trees)
    ensures var reg := RegistryAfter(cfg, trees, |trees|);
      && (r.Ok? <==> LevelsComparable(reg))
      && (r.Ok? ==> multiset(r.value) == multiset(reg.order))
      && (r.Ok? ==> Ordered(r.value, Tied(ByList(reg.levels), ByPlace(Tops(cfg, trees)))))
  {
    var order: seq<Item> := [];
    var levels: map<string, nat> := map[];
    var maxLevel := 0;
    for i := 0 to |trees|
      invariant Registry(order, levels) == RegistryAfter(cfg, trees, i)
      invariant forall id :: id in levels ==> levels[id] <= maxLevel
    {
      var top, level := trees[i][0], |trees[i]|;
      if level > maxLevel {
        maxLevel := level;
      }
      if top !in levels {
        order := order + [cfg.items[top]];
        levels := levels[top := level];
      }
    }
    RegisteredAfter(cfg, trees, |trees|);
    ArrangedFacts(cfg, Tops(cfg, trees), RegistryAfter(cfg, trees, |trees|));
    r := ListByLevel(Registry(order, levels), maxLevel, ByPlace(Tops(cfg, trees)));
  }

  // ----- The whole extraction -----

  ghost predicate ListedBefore(items: seq<Item>, a: string, b: string) {
    exists i, j :: 0 <= i < j < |items| && items[i].id == a && items[j].id == b
  }

  /** `keys` is the tree built for the item. */
  ghost predicate TreeFor(cfg: Config, rank: map<string, nat>, id: string, keys: seq<string>)
    requires cfg.Valid() && Ranked(cfg, rank)
  {
    && Found(cfg, rank, id) && keys != [] && keys[0] == id && NoDup(keys)
    && Elements(keys) == {id} + Elements(FindDeps(cfg, rank, id).value)
  }

  ghost predicate TreesFor(cfg: Config, rank: map<string, nat>, trees: seq<seq<string>>)
    requires cfg.Valid() && Ranked(cfg, rank)
  {
    |trees| == |cfg.order| && forall j :: 0 <= j < |trees| ==> TreeFor(cfg, rank, cfg.order[j], trees[j])
  }

  lemma TreesForAll(cfg: Config, rank: map<string, nat>, trees: seq<seq<string>>)
    requires cfg.Valid() && Ranked(cfg, rank) && TreesFor(cfg, rank, trees)
    ensures AllFound(cfg, rank) && Headed(cfg, trees) && Tops(cfg, trees) == cfg.order
  {
    forall i | 0 <= i < |trees| ensures trees[i] != [] && trees[i][0] == cfg.order[i] && cfg.order[i] in cfg.items {
      assert TreeFor(cfg, rank, cfg.order[i], trees[i]);
      assert cfg.order[i] in cfg.order;
    }
    forall id | id in cfg.items ensures Found(cfg, rank, id) {
      assert id in cfg.order;
      var j :| 0 <= j < |cfg.order| && cfg.order[j] == id;
      assert TreeFor(cfg, rank, cfg.order[j], trees[j]);
    }
  }

  /** Each item's level: the size of its tree. */
  ghost function LevelsOf(cfg: Config, rank: map<string, nat>): map<string, nat>
    requires AllFound(cfg, rank)
  {
    map id | id in cfg.items :: Level(cfg, rank, id)
  }

  lemma TreeLevel(cfg: Config, rank: map<string, nat>, id: string, keys: seq<string>)
    requires AllFound(cfg, rank) && id in cfg.items && TreeFor(cfg, rank, id, keys)
    ensures |keys| == Level(cfg, rank, id)
  {
    NoDupSize(keys);
  }

  /** The registry has every item, at the size of its tree. */
  lemma RegistryLevels(cfg: Config, rank: map<string, nat>, trees: seq<seq<string>>, levels: map<string, nat>)
    requires AllFound(cfg, rank) && TreesFor(cfg, rank, trees) && Headed(cfg, trees) && Tops(cfg, trees) == cfg.order
    requires Levelled(cfg, trees, |trees|, levels)
    ensures levels == LevelsOf(cfg, rank)
  {
    forall id ensures (id in levels <==> id in cfg.items) && (id in levels ==> levels[id] == LevelsOf(cfg, rank)[id]) {
      assert LevelledAt(cfg, trees, |trees|, levels, id);
      PlaceWithin(cfg.order, id);
      if id in cfg.items {
        var p := Place(cfg.order, id);
        assert TreeFor(cfg, rank, cfg.order[p], trees[p]);
        TreeLevel(cfg, rank, id, trees[p]);
      }
    }
  }

  /** Where the order relation holds one way only, it decides the places. */
  lemma OrderDecides(items: seq<Item>, le: (Item, Item) -> bool, a: Item, b: Item)
    requires Ordered(items, le) && a in items && b in items && a != b && !le(b, a)
    ensures ListedBefore(items, a.id, b.id)
  {
    var i, j :| 0 <= i < |items| && 0 <= j < |items| && items[i] == a && items[j] == b;
  }

  /** The order of the list: by tree size, type and field, and then as the configuration has it. */
  ghost function InOrder(cfg: Config, rank: map<string, nat>): (Item, Item) -> bool
    requires AllFound(cfg, rank)
  {
    Tied(ByList(LevelsOf(cfg, rank)), ByPlace(cfg.order))
  }

  /** What the list is: every item once, in that order. */
  ghost predicate ListedWell(cfg: Config, rank: map<string, nat>, items: seq<Item>)
    requires AllFound(cfg, rank)
  {
    && NoDup(items) && (forall x :: x in items <==> x.id in cfg.items && cfg.items[x.id] == x)
    && Ordered(items, InOrder(cfg, rank))
  }

  /** An item that shares no reference with what it rests on comes after all of it. */
  lemma AfterWhatItRestsOn(cfg: Config, rank: map<string, nat>, items: seq<Item>, a: string, b: string)
    requires AllFound(cfg, rank) && ListedWell(cfg, rank, items)
    requires a in cfg.items && RestsOn(cfg, rank, a, b) && NoSharing(cfg, rank, a)
    ensures ListedBefore(items, b, a)
  {
    LevelsRise(cfg, rank, a, b);
    assert cfg.items[a] in items && cfg.items[b] in items;
    OrderDecides(items, InOrder(cfg, rank), cfg.items[b], cfg.items[a]);
  }

  lemma NotBothBefore(items: seq<Item>, a: string, b: string)
    requires NoDup(items) && ListedBefore(items, a, b)
    requires forall x, y :: x in items && y in items && x.id == y.id ==> x == y
    ensures !ListedBefore(items, b, a)
  {
    var i, j :| 0 <= i < j < |items| && items[i].id == a && items[j].id == b;
    forall k | 0 <= k < |items| && items[k].id == b ensures k == j {
      assert items[k] == items[j];
    }
    forall l | 0 <= l < |items| && items[l].id == a ensures l == i {
      assert items[l] == items[i];
    }
  }

  lemma TypeKeyTotal(x: Item, y: Item)
    ensures TypeKeyLe(x, y) || TypeKeyLe(y, x)
  {
    ValueLeOrder(KeyOf(x, OrderField(x.typ)), KeyOf(y, OrderField(x.typ)), Num(0));
    assert TypeIndex(x.typ) == TypeIndex(y.typ) ==> x.typ == y.typ by {
      assert TypeAt(TypeIndex(x.typ)) == x.typ;
    }
  }

  /** Of two items in different places exactly one is in order before the other. */
  lemma TiedOneWay(levels: map<string, nat>, ids: seq<string>, x: Item, y: Item)
    requires Place(ids, x.id) != Place(ids, y.id) && LevelOf(levels, y) <= LevelOf(levels, x)
    ensures var le := Tied(ByList(levels), ByPlace(ids));
      && (le(x, y) <==> !le(y, x))
      && (le(x, y) <==>
            LevelOf(levels, x) == LevelOf(levels, y) && TypeKeyLe(x, y)
              && (TypeKeyLe(y, x) ==> Place(ids, x.id) < Place(ids, y.id)))
  {
    TypeKeyTotal(x, y);
  }

  lemma InOrderOneWay(cfg: Config, rank: map<string, nat>, a: string, b: string)
    requires AllFound(cfg, rank) && a in cfg.items && b in cfg.items && RestsOn(cfg, rank, a, b)
    ensures InOrder(cfg, rank)(cfg.items[a], cfg.items[b]) <==> !InOrder(cfg, rank)(cfg.items[b], cfg.items[a])
    ensures InOrder(cfg, rank)(cfg.items[a], cfg.items[b]) <==>
      && Tree(cfg, rank, a) == Tree(cfg, rank, b) && TypeKeyLe(cfg.items[a], cfg.items[b])
      && (TypeKeyLe(cfg.items[b], cfg.items[a]) ==> Place(cfg.order, a) < Place(cfg.order, b))
  {
    LevelsRise(cfg, rank, a, b);
    RestsOnLower(cfg, rank, a, b);
    PlaceWithin(cfg.order, a);
    PlaceWithin(cfg.order, b);
    TiedOneWay(LevelsOf(cfg, rank), cfg.order, cfg.items[a], cfg.items[b]);
  }

  /** Where an item comes that rests on `b`: after `b` exactly if their trees differ, or else type and field put
      `b` first, or else, on a tie, the configuration does. */
  lemma ExactPlace(cfg: Config, rank: map<string, nat>, items: seq<Item>, a: string, b: string)
    requires AllFound(cfg, rank) && ListedWell(cfg, rank, items) && a in cfg.items && RestsOn(cfg, rank, a, b)
    ensures b in cfg.items
    ensures ListedBefore(items, b, a) <==>
      || Tree(cfg, rank, a) != Tree(cfg, rank, b)
      || !TypeKeyLe(cfg.items[a], cfg.items[b])
      || (TypeKeyLe(cfg.items[b], cfg.items[a]) && Place(cfg.order, b) < Place(cfg.order, a))
    ensures ListedBefore(items, a, b) <==> !ListedBefore(items, b, a)
  {
    RestsOnLower(cfg, rank, a, b);
    InOrderOneWay(cfg, rank, a, b);
    var x, y := cfg.items[a], cfg.items[b];
    assert x in items && y in items && x != y;
    if InOrder(cfg, rank)(x, y) {
      OrderDecides(items, InOrder(cfg, rank), x, y);
      NotBothBefore(items, a, b);
    } else {
      OrderDecides(items, InOrder(cfg, rank), y, x);
      NotBothBefore(items, b, a);
    }
  }

  /** Every item that shares no reference with what it rests on comes after all of that. */
  ghost predicate DependenciesFirst(cfg: Config, rank: map<string, nat>, items: seq<Item>)
    requires AllFound(cfg, rank)
  {
    forall a, b :: a in cfg.items && RestsOn(cfg, rank, a, b) && NoSharing(cfg, rank, a) ==> ListedBefore(items, b, a)
  }

  /** Field by field: an item that shares no reference with what it rests on comes after each item it names. */
  ghost predicate FieldsFirst(cfg: Config, rank: map<string, nat>, items: seq<Item>)
    requires AllFound(cfg, rank)
  {
    forall a, key, dep :: a in cfg.items && NoSharing(cfg, rank, a) && RefersTo(cfg.items[a], key, dep) ==>
      ListedBefore(items, dep, a)
  }

  /** The registry holds every item once, at its level. */
  ghost predicate Complete(cfg: Config, rank: map<string, nat>, reg: Registry)
    requires AllFound(cfg, rank)
  {
    && NoDup(reg.order) && (forall x :: x in reg.order <==> x.id in cfg.items && cfg.items[x.id] == x)
    && reg.levels == LevelsOf(cfg, rank)
  }

  lemma RegistryComplete(cfg: Config, rank: map<string, nat>, trees: seq<seq<string>>)
    requires AllFound(cfg, rank) && TreesFor(cfg, rank, trees) && Headed(cfg, trees) && Tops(cfg, trees) == cfg.order
    ensures Complete(cfg, rank, RegistryAfter(cfg, trees, |trees|))
  {
    var reg := RegistryAfter(cfg, trees, |trees|);
    RegisteredLevels(cfg, trees, |trees|);
    RegisteredAfter(cfg, trees, |trees|);
    ArrangedFacts(cfg, Tops(cfg, trees), RegistryAfter(cfg, trees, |trees|));
    RegistryLevels(cfg, rank, trees, reg.levels);
  }

  lemma CompleteListing(cfg: Config, rank: map<string, nat>, reg: Registry, items: seq<Item>)
    requires AllFound(cfg, rank) && Complete(cfg, rank, reg)
    requires multiset(items) == multiset(reg.order) && Ordered(items, Tied(ByList(reg.levels), ByPlace(cfg.order)))
    ensures ListedWell(cfg, rank, items)
  {
    PermutationFacts(items, reg.order);
    PermutationNoDup(reg.order, items);
  }

  lemma NamedFirst(cfg: Config, rank: map<string, nat>, items: seq<Item>, a: string, key: string, dep: string)
    requires AllFound(cfg, rank) && DependenciesFirst(cfg, rank, items)
    requires a in cfg.items && NoSharing(cfg, rank, a) && RefersTo(cfg.items[a], key, dep)
    ensures ListedBefore(items, dep, a)
  {
    DirectTree(cfg, rank, a, key, dep);
    assert RestsOn(cfg, rank, a, dep);
  }

  lemma WellListedFirst(cfg: Config, rank: map<string, nat>, items: seq<Item>)
    requires AllFound(cfg, rank) && ListedWell(cfg, rank, items)
    ensures DependenciesFirst(cfg, rank, items) && FieldsFirst(cfg, rank, items)
  {
    forall a, b | a in cfg.items && RestsOn(cfg, rank, a, b) && NoSharing(cfg, rank, a)
      ensures ListedBefore(items, b, a)
    {
      AfterWhatItRestsOn(cfg, rank, items, a, b);
    }
    forall a, key, dep | a in cfg.items && NoSharing(cfg, rank, a) && RefersTo(cfg.items[a], key, dep)
      ensures ListedBefore(items, dep, a)
    {
      NamedFirst(cfg, rank, items, a, key, dep);
    }
  }

  /** Two items of one type whose trees are of one size. */
  ghost predicate Peers(cfg: Config, rank: map<string, nat>, a: string, b: string)
    requires AllFound(cfg, rank)
  {
    && a in cfg.items && b in cfg.items && cfg.items[a].typ == cfg.items[b].typ
    && Level(cfg, rank, a) == Level(cfg, rank, b)
  }

  /** Peers can be sorted together. */
  ghost predicate PeersComparable(cfg: Config, rank: map<string, nat>)
    requires AllFound(cfg, rank)
  {
    forall a, b :: Peers(cfg, rank, a, b) ==> Comparable(cfg.items[a], cfg.items[b])
  }

  lemma PeerLevels(cfg: Config, rank: map<string, nat>, reg: Registry, a: string, b: string)
    requires AllFound(cfg, rank) && Complete(cfg, rank, reg) && a in cfg.items && b in cfg.items
    ensures cfg.items[a] in reg.order && cfg.items[b] in reg.order
    ensures Peers(cfg, rank, a, b) <==>
      cfg.items[a].typ == cfg.items[b].typ && LevelOf(reg.levels, cfg.items[a]) == LevelOf(reg.levels, cfg.items[b])
  {
    assert cfg.items[a].id == a && cfg.items[b].id == b;
  }

  lemma RegistryComparable(cfg: Config, rank: map<string, nat>, reg: Registry)
    requires AllFound(cfg, rank) && Complete(cfg, rank, reg)
    ensures LevelsComparable(reg) <==> PeersComparable(cfg, rank)
  {
    if LevelsComparable(reg) {
      forall a, b | Peers(cfg, rank, a, b) ensures Comparable(cfg.items[a], cfg.items[b]) {
        PeerLevels(cfg, rank, reg, a, b);
      }
    }
    if PeersComparable(cfg, rank) {
      forall x, y |
        x in reg.order && y in reg.order && LevelOf(reg.levels, x) == LevelOf(reg.levels, y) && x.typ == y.typ
        ensures Comparable(x, y)
      {
        PeerLevels(cfg, rank, reg, x.id, y.id);
      }
    }
  }

  /** The list in plain terms: by the size of the trees, and among equals by type and field. */
  ghost predicate PlainlyOrdered(cfg: Config, rank: map<string, nat>, items: seq<Item>)
    requires AllFound(cfg, rank)
  {
    forall i, j :: 0 <= i < j < |items| && items[i].id in cfg.items && items[j].id in cfg.items ==>
      var m, n := |Tree(cfg, rank, items[i].id)|, |Tree(cfg, rank, items[j].id)|;
      m <= n && (m == n ==> SortsBefore(items[i], items[j]))
  }

  lemma PairPlainly(cfg: Config, rank: map<string, nat>, x: Item, y: Item)
    requires AllFound(cfg, rank) && PeersComparable(cfg, rank) && InOrder(cfg, rank)(x, y)
    requires x.id in cfg.items && cfg.items[x.id] == x && y.id in cfg.items && cfg.items[y.id] == y
    ensures |Tree(cfg, rank, x.id)| <= |Tree(cfg, rank, y.id)|
    ensures |Tree(cfg, rank, x.id)| == |Tree(cfg, rank, y.id)| ==> SortsBefore(x, y)
  {
    assert Found(cfg, rank, x.id) && Found(cfg, rank, y.id);
    if Level(cfg, rank, x.id) == Level(cfg, rank, y.id) {
      assert x.typ == y.typ ==> Peers(cfg, rank, x.id, y.id) && Peers(cfg, rank, y.id, x.id);
      SortsByName(x, y);
    }
  }

  lemma ListedPlainly(cfg: Config, rank: map<string, nat>, items: seq<Item>)
    requires AllFound(cfg, rank) && PeersComparable(cfg, rank) && ListedWell(cfg, rank, items)
    ensures PlainlyOrdered(cfg, rank, items)
  {
    forall i, j | 0 <= i < j < |items|
      ensures items[i].id in cfg.items && items[j].id in cfg.items
      ensures var m, n := |Tree(cfg, rank, items[i].id)|, |Tree(cfg, rank, items[j].id)|;
        m <= n && (m == n ==> SortsBefore(items[i], items[j]))
    {
      assert items[i] in items && items[j] in items;
      PairPlainly(cfg, rank, items[i], items[j]);
    }
  }

  /** The whole extraction: a tree for every item in turn, then the merged list. */
  method OrderConfig(cfg: Config, ghost rank: map<string, nat>) returns (r: Result<seq<Item>, DepError>)
    requires cfg.Valid() && Ranked(cfg, rank)
    ensures r.Ok? <==> AllFound(cfg, rank) && PeersComparable(cfg, rank)
    ensures r.Ok? ==> ListedWell(cfg, rank, r.value) && DependenciesFirst(cfg, rank, r.value)
    ensures r.Ok? ==> FieldsFirst(cfg, rank, r.value) && PlainlyOrdered(cfg, rank, r.value)
  {
    var trees: seq<seq<string>> := [];
    for i := 0 to |cfg.order|
      invariant |trees| == i
      invariant forall j :: 0 <= j < i ==> TreeFor(cfg, rank, cfg.order[j], trees[j])
    {
      assert cfg.order[i] in cfg.order;
      var tree := GetConfigTree(cfg, rank, cfg.order[i]);
      if tree.Err? {
        return Err(tree.error);
      }
      trees := trees + [tree.value];
    }
    TreesForAll(cfg, rank, trees);
    r := MergeTrees(cfg, trees);
    ghost var reg := RegistryAfter(cfg, trees, |trees|);
    RegistryComplete(cfg, rank, trees);
    RegistryComparable(cfg, rank, reg);
    if r.Ok? {
      CompleteListing(cfg, rank, reg, r.value);
      WellListedFirst(cfg, rank, r.value);
      ListedPlainly(cfg, rank, r.value);
    }
  }
}
