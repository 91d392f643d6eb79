/** When collecting succeeds, and a configuration in which sharing a reference puts an item before what it rests on. */
module StorageTie {
  import opened Wrappers
  import opened Sorting
  import opened StorageDeps
  import opened StorageOrder
  import opened StorageSort
  import opened StorageMerge

  /** The items sharing the reference can be compared with each other by the field. */
  ghost predicate SharersComparable(cfg: Config, key: string, dep: string, field: string) {
    forall x, y :: Shares(cfg, x, key, dep) && Shares(cfg, y, key, dep) ==>
      ComparableBy(field, cfg.items[x], cfg.items[y])
  }

  /** The reference leads to an item of an allowed type, and the items sharing it can be compared. */
  ghost predicate GoodReference(cfg: Config, item: Item, key: string, dep: string) {
    && dep in cfg.items && MayDependOn(item.typ, cfg.items[dep].typ)
    && SharersComparable(cfg, key, dep, OrderField(item.typ))
  }

  lemma {:induction false} SameDepNoDup(cfg: Config, order: seq<string>, key: string, dep: string)
    requires NoDup(order) && forall id :: id in order ==> id in cfg.items && cfg.items[id].id == id
    ensures NoDup(SameDep(cfg, order, key, dep))
  {
    if order != [] {
      SameDepNoDup(cfg, order[1..], key, dep);
      var rest := SameDep(cfg, order[1..], key, dep);
      SameDepMembers(cfg, order[1..], key, dep, cfg.items[order[0]]);
      assert cfg.items[order[0]] !in rest;
    }
  }

  lemma SharersSortable(cfg: Config, key: string, dep: string, field: string)
    requires cfg.Valid() && NoDup(cfg.order)
    ensures SortItems(SameDep(cfg, cfg.order, key, dep), field).Ok? <==> SharersComparable(cfg, key, dep, field)
  {
    var same := SameDep(cfg, cfg.order, key, dep);
    SameDepNoDup(cfg, cfg.order, key, dep);
    SortableItems(same, field);
    forall x ensures x in same <==> Shares(cfg, x.id, key, dep) && cfg.items[x.id] == x {
      SameDepMembers(cfg, cfg.order, key, dep, x);
      if Shares(cfg, x.id, key, dep) && cfg.items[x.id] == x {
        assert x.id in cfg.order;
      }
    }
    if forall x, y :: x in same && y in same ==> ComparableBy(field, x, y) {
      forall x, y | Shares(cfg, x, key, dep) && Shares(cfg, y, key, dep)
        ensures ComparableBy(field, cfg.items[x], cfg.items[y])
      {
        assert cfg.items[x] in same && cfg.items[y] in same;
      }
    }
  }

  /** The reference is good, and collecting succeeds for the item it leads to. */
  ghost predicate Followed(cfg: Config, rank: map<string, nat>, item: Item, key: string, dep: string)
    requires cfg.Valid() && Ranked(cfg, rank)
  {
    GoodReference(cfg, item, key, dep) && Found(cfg, rank, dep)
  }

  ghost predicate AllFollowed(cfg: Config, rank: map<string, nat>, item: Item, key: string, deps: seq<string>)
    requires cfg.Valid() && Ranked(cfg, rank)
  {
    forall dep :: dep in deps ==> Followed(cfg, rank, item, key, dep)
  }

  lemma OneMoreFollowed(cfg: Config, rank: map<string, nat>, item: Item, key: string, deps: seq<string>, n: nat)
    requires cfg.Valid() && Ranked(cfg, rank) && 0 < n <= |deps|
    ensures AllFollowed(cfg, rank, item, key, deps[..n]) <==>
      AllFollowed(cfg, rank, item, key, deps[..n - 1]) && Followed(cfg, rank, item, key, deps[n - 1])
  {
    assert deps[..n] == deps[..n - 1] + [deps[n - 1]];
  }

  lemma LastFollowed(cfg: Config, rank: map<string, nat>, item: Item, key: string, deps: seq<string>, n: nat)
    requires cfg.Valid() && NoDup(cfg.order) && Ranked(cfg, rank) && item.id in cfg.items && item == cfg.items[item.id]
    requires OrderKey(item.typ).Some?
    requires (forall dep :: dep in deps ==> RefersTo(item, key, dep)) && 0 < n <= |deps|
    ensures ValuesDeps(cfg, rank, item, key, deps, n).Ok? <==>
      ValuesDeps(cfg, rank, item, key, deps, n - 1).Ok? && Followed(cfg, rank, item, key, deps[n - 1])
  {
    assert deps[n - 1] in deps;
    SharersSortable(cfg, key, deps[n - 1], OrderField(item.typ));
  }

  lemma {:induction false} ValuesFound(cfg: Config, rank: map<string, nat>, item: Item, key: string, deps: seq<string>,
                                       n: nat)
    requires cfg.Valid() && NoDup(cfg.order) && Ranked(cfg, rank) && item.id in cfg.items && item == cfg.items[item.id]
    requires OrderKey(item.typ).Some?
    requires (forall dep :: dep in deps ==> RefersTo(item, key, dep)) && n <= |deps|
    ensures ValuesDeps(cfg, rank, item, key, deps, n).Ok? <==> AllFollowed(cfg, rank, item, key, deps[..n])
  {
    if n > 0 {
      ValuesFound(cfg, rank, item, key, deps, n - 1);
      OneMoreFollowed(cfg, rank, item, key, deps, n);
      LastFollowed(cfg, rank, item, key, deps, n);
    } else {
      assert AllFollowed(cfg, rank, item, key, deps[..n]);
    }
  }

  /** The item's field is absent, or names items and every reference in it can be followed. */
  ghost predicate KeyFollowed(cfg: Config, rank: map<string, nat>, item: Item, key: string)
    requires cfg.Valid() && Ranked(cfg, rank)
  {
    key in item.fields ==> !item.fields[key].Num? && AllFollowed(cfg, rank, item, key, DepValues(item.fields[key]))
  }

  lemma LastKeyFollowed(cfg: Config, rank: map<string, nat>, item: Item, keys: seq<string>, n: nat)
    requires cfg.Valid() && NoDup(cfg.order) && Ranked(cfg, rank) && item.id in cfg.items && item == cfg.items[item.id]
    requires OrderKey(item.typ).Some? && DepKeys(item.typ) == Some(keys) && 0 < n <= |keys|
    ensures KeysDeps(cfg, rank, item, keys, n).Ok? <==>
      KeysDeps(cfg, rank, item, keys, n - 1).Ok? && KeyFollowed(cfg, rank, item, keys[n - 1])
  {
    var key := keys[n - 1];
    if key in item.fields {
      var deps := DepValues(item.fields[key]);
      assert forall dep :: dep in deps ==> RefersTo(item, key, dep);
      ValuesFound(cfg, rank, item, key, deps, |deps|);
      assert deps[..|deps|] == deps;
    }
  }

  /** The first `n` keys can be followed. */
  ghost predicate KeysFollowed(cfg: Config, rank: map<string, nat>, item: Item, keys: seq<string>, n: nat)
    requires cfg.Valid() && Ranked(cfg, rank) && n <= |keys|
  {
    forall i :: 0 <= i < n ==> KeyFollowed(cfg, rank, item, keys[i])
  }

  lemma OneMoreKeyFollowed(cfg: Config, rank: map<string, nat>, item: Item, keys: seq<string>, n: nat)
    requires cfg.Valid() && Ranked(cfg, rank) && 0 < n <= |keys|
    ensures KeysFollowed(cfg, rank, item, keys, n) <==>
      KeysFollowed(cfg, rank, item, keys, n - 1) && KeyFollowed(cfg, rank, item, keys[n - 1])
  {
  }

  lemma {:induction false} KeysFound(cfg: Config, rank: map<string, nat>, item: Item, keys: seq<string>, n: nat)
    requires cfg.Valid() && NoDup(cfg.order) && Ranked(cfg, rank) && item.id in cfg.items && item == cfg.items[item.id]
    requires OrderKey(item.typ).Some? && DepKeys(item.typ) == Some(keys) && n <= |keys|
    ensures KeysDeps(cfg, rank, item, keys, n).Ok? <==> KeysFollowed(cfg, rank, item, keys, n)
  {
    if n > 0 {
      KeysFound(cfg, rank, item, keys, n - 1);
      OneMoreKeyFollowed(cfg, rank, item, keys, n);
      LastKeyFollowed(cfg, rank, item, keys, n);
    }
  }

  /** Collecting succeeds for an item exactly when its type is known, its reference fields name items, and every
      reference is to an allowed type, has comparable sharers, and leads to an item for which collecting succeeds.
      As the keys of a dict, the ids in the order are different. */
  lemma FoundExactly(cfg: Config, rank: map<string, nat>, id: string)
    requires cfg.Valid() && NoDup(cfg.order) && Ranked(cfg, rank) && id in cfg.items
    ensures var item := cfg.items[id];
      Found(cfg, rank, id) <==>
        && item.typ != Other
        && (forall key :: key in DepKeys(item.typ).value && key in item.fields ==> !item.fields[key].Num?)
        && (forall key, dep :: RefersTo(item, key, dep) ==> GoodReference(cfg, item, key, dep) && Found(cfg, rank, dep))
  {
    var item := cfg.items[id];
    if item.typ != Other {
      var keys := DepKeys(item.typ).value;
      KeysFound(cfg, rank, item, keys, |keys|);
      if Found(cfg, rank, id) {
        forall key | key in keys ensures KeyFollowed(cfg, rank, item, key) {
          var i :| 0 <= i < |keys| && keys[i] == key;
        }
        forall key, dep | RefersTo(item, key, dep) ensures Followed(cfg, rank, item, key, dep) {
          assert KeyFollowed(cfg, rank, item, key);
        }
      }
      if forall key, dep :: RefersTo(item, key, dep) ==> GoodReference(cfg, item, key, dep) && Found(cfg, rank, dep) {
        forall key, dep | key in keys && key in item.fields && dep in DepValues(item.fields[key])
          ensures Followed(cfg, rank, item, key, dep)
        {
          assert RefersTo(item, key, dep);
        }
      }
    }
  }

  // ----- Two caches on one device -----

  const DISK_A := Item("a", DiskItem, map[])
  const DISK_C := Item("c", DiskItem, map[])
  const LOWER := Item("b0", Bcache, map["backing_device" := Str("a"), "cache_device" := Str("c"), "name" := Str("y")])
  const UPPER := Item("b1", Bcache, map["backing_device" := Str("b0"), "cache_device" := Str("c"), "name" := Str("x")])

  const SHARED_CACHE := Config(["a", "c", "b0", "b1"], map["a" := DISK_A, "c" := DISK_C, "b0" := LOWER, "b1" := UPPER])

  const RANK: map<string, nat> := map["a" := 0, "c" := 0, "b0" := 1, "b1" := 2]

  lemma References(item: Item, key: string, dep: string)
    requires item in [DISK_A, DISK_C, LOWER, UPPER]
    ensures RefersTo(item, key, dep) <==>
      || (item == LOWER && ((key == "backing_device" && dep == "a") || (key == "cache_device" && dep == "c")))
      || (item == UPPER && ((key == "backing_device" && dep == "b0") || (key == "cache_device" && dep == "c")))
  {
  }

  lemma SharedCacheRanked()
    ensures SHARED_CACHE.Valid() && Ranked(SHARED_CACHE, RANK)
  {
    var cfg := SHARED_CACHE;
    forall id, key, dep | id in cfg.items && RefersTo(cfg.items[id], key, dep) && dep in cfg.items
      ensures RANK[dep] < RANK[id]
    {
      References(cfg.items[id], key, dep);
    }
  }

  /** Only the two caches have either field, and both have a name. */
  lemma SharerNamed(x: string, key: string, dep: string)
    requires key in ["backing_device", "cache_device"] && Shares(SHARED_CACHE, x, key, dep)
    ensures SHARED_CACHE.items[x].Get("name").Some? && KeyOf(SHARED_CACHE.items[x], "name").Str?
  {
  }

  lemma SharersNamed(key: string, dep: string)
    requires key in ["backing_device", "cache_device"]
    ensures SharersComparable(SHARED_CACHE, key, dep, "name")
  {
    forall x, y | Shares(SHARED_CACHE, x, key, dep) && Shares(SHARED_CACHE, y, key, dep)
      ensures ComparableBy("name", SHARED_CACHE.items[x], SHARED_CACHE.items[y])
    {
      SharerNamed(x, key, dep);
      SharerNamed(y, key, dep);
    }
  }

  lemma AllReferencesGood(item: Item, key: string, dep: string)
    requires item in [DISK_A, DISK_C, LOWER, UPPER] && RefersTo(item, key, dep)
    ensures GoodReference(SHARED_CACHE, item, key, dep)
  {
    References(item, key, dep);
    SharersNamed(key, dep);
  }

  /** One step of the check that collecting succeeds. */
  lemma ItemFound(id: string)
    requires SHARED_CACHE.Valid() && Ranked(SHARED_CACHE, RANK) && id in SHARED_CACHE.items
    requires forall key, dep :: RefersTo(SHARED_CACHE.items[id], key, dep) ==> Found(SHARED_CACHE, RANK, dep)
    ensures Found(SHARED_CACHE, RANK, id)
  {
    forall key, dep | RefersTo(SHARED_CACHE.items[id], key, dep)
      ensures GoodReference(SHARED_CACHE, SHARED_CACHE.items[id], key, dep)
    {
      AllReferencesGood(SHARED_CACHE.items[id], key, dep);
    }
    FoundExactly(SHARED_CACHE, RANK, id);
  }

  lemma DisksFound()
    requires SHARED_CACHE.Valid() && Ranked(SHARED_CACHE, RANK)
    ensures Found(SHARED_CACHE, RANK, "a") && Found(SHARED_CACHE, RANK, "c")
  {
    forall key, dep ensures !RefersTo(DISK_A, key, dep) && !RefersTo(DISK_C, key, dep) {
      References(DISK_A, key, dep);
      References(DISK_C, key, dep);
    }
    ItemFound("a");
    ItemFound("c");
  }

  lemma LowerFound()
    requires SHARED_CACHE.Valid() && Ranked(SHARED_CACHE, RANK)
    ensures Found(SHARED_CACHE, RANK, "b0")
  {
    DisksFound();
    forall key, dep | RefersTo(LOWER, key, dep) ensures Found(SHARED_CACHE, RANK, dep) {
      References(LOWER, key, dep);
    }
    ItemFound("b0");
  }

  lemma UpperFound()
    requires SHARED_CACHE.Valid() && Ranked(SHARED_CACHE, RANK)
    ensures Found(SHARED_CACHE, RANK, "b1")
  {
    DisksFound();
    LowerFound();
    forall key, dep | RefersTo(UPPER, key, dep) ensures Found(SHARED_CACHE, RANK, dep) {
      References(UPPER, key, dep);
    }
    ItemFound("b1");
  }

  lemma SharedCacheFound()
    ensures AllFound(SHARED_CACHE, RANK)
  {
    SharedCacheRanked();
    DisksFound();
    LowerFound();
    UpperFound();
  }

  lemma CacheReferences()
    ensures RefersTo(LOWER, "backing_device", "a") && RefersTo(LOWER, "cache_device", "c")
    ensures RefersTo(UPPER, "backing_device", "b0") && RefersTo(UPPER, "cache_device", "c")
  {
    References(LOWER, "backing_device", "a");
    References(LOWER, "cache_device", "c");
    References(UPPER, "backing_device", "b0");
    References(UPPER, "cache_device", "c");
  }

  lemma OneOfFour(id: string, x: string)
    requires AllFound(SHARED_CACHE, RANK) && id in SHARED_CACHE.items && x in Tree(SHARED_CACHE, RANK, id)
    ensures x in SHARED_CACHE.items
  {
    TreeMembers(SHARED_CACHE, RANK, id, x);
    if RestsOn(SHARED_CACHE, RANK, id, x) {
      RestsOnLower(SHARED_CACHE, RANK, id, x);
    }
  }

  lemma OnlyFour(id: string)
    requires AllFound(SHARED_CACHE, RANK) && id in SHARED_CACHE.items
    ensures Tree(SHARED_CACHE, RANK, id) <= {"a", "c", "b0", "b1"}
  {
    forall x | x in Tree(SHARED_CACHE, RANK, id) ensures x in {"a", "c", "b0", "b1"} {
      OneOfFour(id, x);
    }
  }

  lemma LowerReaches(x: string)
    requires AllFound(SHARED_CACHE, RANK) && x in {"a", "c", "b1"}
    ensures x in Tree(SHARED_CACHE, RANK, "b0") && RestsOn(SHARED_CACHE, RANK, "b1", "b0")
  {
    CacheReferences();
    assert SHARED_CACHE.items["b0"] == LOWER && SHARED_CACHE.items["b1"] == UPPER;
    assert Shares(SHARED_CACHE, "b1", "cache_device", "c");
    assert x != "b1" ==> RestsOn(SHARED_CACHE, RANK, "b0", x);
    TreeMembers(SHARED_CACHE, RANK, "b0", x);
  }

  lemma EqualTrees()
    requires AllFound(SHARED_CACHE, RANK)
    ensures RestsOn(SHARED_CACHE, RANK, "b1", "b0")
    ensures Tree(SHARED_CACHE, RANK, "b1") == Tree(SHARED_CACHE, RANK, "b0")
  {
    LowerReaches("a");
    LowerReaches("c");
    LowerReaches("b1");
    OnlyFour("b1");
    RestsOnTree(SHARED_CACHE, RANK, "b1", "b0");
  }

  lemma NameOrder()
    ensures !TypeKeyLe(LOWER, UPPER)
  {
    assert !LexLe("y", "x");
  }

  lemma CachesComparable(a: Item, b: Item)
    requires a in [DISK_A, DISK_C, LOWER, UPPER] && b in [DISK_A, DISK_C, LOWER, UPPER] && a.typ == b.typ
    ensures Comparable(a, b)
  {
  }

  /** The configuration is accepted: everything is found and all peers can be compared. */
  lemma SharedCacheAccepted()
    ensures AllFound(SHARED_CACHE, RANK) && PeersComparable(SHARED_CACHE, RANK)
  {
    SharedCacheFound();
    forall a, b | Peers(SHARED_CACHE, RANK, a, b)
      ensures Comparable(SHARED_CACHE.items[a], SHARED_CACHE.items[b])
    {
      CachesComparable(SHARED_CACHE.items[a], SHARED_CACHE.items[b]);
    }
  }

  /** The sharing condition is needed: two bcache devices share their cache device, one rests on the other,
      both trees hold all four items, and the name puts the upper one first. */
  lemma SharingBreaksOrder(items: seq<Item>)
    requires AllFound(SHARED_CACHE, RANK) && ListedWell(SHARED_CACHE, RANK, items)
    ensures RestsOn(SHARED_CACHE, RANK, "b1", "b0") && !NoSharing(SHARED_CACHE, RANK, "b1")
    ensures ListedBefore(items, "b1", "b0") && !ListedBefore(items, "b0", "b1")
  {
    EqualTrees();
    LevelsRise(SHARED_CACHE, RANK, "b1", "b0");
    NameOrder();
    ExactPlace(SHARED_CACHE, RANK, items, "b1", "b0");
  }

  /** So the extraction, which succeeds on that configuration, lists the upper device first. */
  method OrderSharedCache() returns (r: Result<seq<Item>, DepError>)
    ensures r.Ok? && ListedBefore(r.value, "b1", "b0") && !ListedBefore(r.value, "b0", "b1")
    ensures AllFound(SHARED_CACHE, RANK) && RestsOn(SHARED_CACHE, RANK, "b1", "b0")
  {
    SharedCacheAccepted();
    r := OrderConfig(SHARED_CACHE, RANK);
    SharingBreaksOrder(r.value);
  }
}
