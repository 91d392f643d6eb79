/** Which items of a storage configuration an item depends on. */
module StorageDeps {
  import opened Wrappers
  import opened Sorting

  /** The value of a field: a string, a list of strings, or a number. */
  datatype Value = Num(n: int) | Str(s: string) | Lst(items: seq<string>)

  /** The item types in the order of their names: bcache, dasd, disk, dm_crypt, format, lvm_partition, lvm_volgroup,
      mount, nvme_controller, partition, raid, zfs, zpool; any other name is unknown. */
  datatype ItemType = Bcache | Dasd | DiskItem | DmCrypt | FormatItem | LvmPartition | LvmVolgroup | Mount
    | NvmeController | PartitionItem | RaidItem | Zfs | Zpool | Other

  datatype Item = Item(id: string, typ: ItemType, fields: map<string, Value>) {
    function Get(key: string): Option<Value> {
      if key == "id" then Some(Str(id))
      else if key in fields then Some(fields[key])
      else None
    }
  }

  /** The configuration is an ordered dict from id to item. */
  datatype Config = Config(order: seq<string>, items: map<string, Item>) {
    ghost predicate Valid() {
      && (forall id :: id in order <==> id in items)
      && (forall id :: id in items ==> items[id].id == id)
    }
  }

  datatype DepError =
    UnknownType(id: string) | BadDependency(id: string, key: string) | NoOrderKey(id: string) | Incomparable

  /** Field by field, the types that refer to other items through it. */
  predicate UsesField(typ: ItemType, key: string) {
    if key == "backing_device" || key == "cache_device" then typ == Bcache
    else if key == "nvme_controller" then typ == DiskItem
    else if key == "volume" then typ == DmCrypt || typ == FormatItem
    else if key == "volgroup" then typ == LvmPartition
    else if key == "devices" then typ == LvmVolgroup || typ == RaidItem
    else if key == "spare_devices" || key == "container" then typ == RaidItem
    else if key == "device" then typ == Mount || typ == PartitionItem
    else if key == "pool" then typ == Zfs
    else key == "vdevs" && typ == Zpool
  }

  /** The fields through which a type refers to other items. The source keeps them in a set, walked in any order. */
  function DepKeys(typ: ItemType): (keys: Option<seq<string>>)
    ensures keys.None? <==> typ == Other
    ensures keys.Some? ==> forall key :: key in keys.value <==> UsesField(typ, key)
  {
    match typ
    case Bcache => Some(["backing_device", "cache_device"])
    case Dasd => Some([])
    case DiskItem => Some(["nvme_controller"])
    case DmCrypt => Some(["volume"])
    case FormatItem => Some(["volume"])
    case LvmPartition => Some(["volgroup"])
    case LvmVolgroup => Some(["devices"])
    case Mount => Some(["device"])
    case NvmeController => Some([])
    case PartitionItem => Some(["device"])
    case RaidItem => Some(["devices", "spare_devices", "container"])
    case Zfs => Some(["pool"])
    case Zpool => Some(["vdevs"])
    case Other => None
  }

  function OrderKey(typ: ItemType): (key: Option<string>)
    ensures key == None <==> typ == Other
    ensures key == Some("name") <==> typ in {Bcache, LvmPartition, LvmVolgroup}
    ensures (key == Some("path") <==> typ == Mount) && (key == Some("number") <==> typ == PartitionItem)
    ensures key == Some("volume") <==> typ == Zfs
    ensures key == Some("id") <==> typ in {Dasd, DiskItem, DmCrypt, FormatItem, NvmeController, RaidItem, Zpool}
  {
    match typ
    case Bcache => Some("name")
    case LvmPartition => Some("name")
    case LvmVolgroup => Some("name")
    case Mount => Some("path")
    case PartitionItem => Some("number")
    case Zfs => Some("volume")
    case Other => None
    case _ => Some("id")
  }

  /** The types that may refer to an item of type `dep`. */
  function Users(dep: ItemType): set<ItemType> {
    match dep
    case Bcache => {Bcache, DmCrypt, FormatItem, LvmVolgroup, PartitionItem, RaidItem}
    case Dasd => {DiskItem}
    case DiskItem => {Bcache, DmCrypt, FormatItem, LvmVolgroup, PartitionItem, RaidItem, Zpool}
    case DmCrypt => {Bcache, DmCrypt, FormatItem, LvmVolgroup, RaidItem}
    case FormatItem => {Mount}
    case LvmPartition => {Bcache, DmCrypt, FormatItem, RaidItem}
    case LvmVolgroup => {LvmPartition}
    case NvmeController => {DiskItem}
    case PartitionItem => {Bcache, DmCrypt, FormatItem, LvmVolgroup, PartitionItem, RaidItem, Zpool}
    case RaidItem => {Bcache, DmCrypt, FormatItem, LvmVolgroup, PartitionItem, RaidItem}
    case Zpool => {Zfs}
    case _ => {}
  }

  /** The types an item of type `source` may refer to. */
  predicate MayDependOn(source: ItemType, dep: ItemType): (may: bool)
    ensures may <==> source in Users(dep)
  {
    match source
    case Bcache => dep in [Bcache, DiskItem, DmCrypt, LvmPartition, PartitionItem, RaidItem]
    case Dasd => false
    case DiskItem => dep in [Dasd, NvmeController]
    case DmCrypt => dep in [Bcache, DiskItem, DmCrypt, LvmPartition, PartitionItem, RaidItem]
    case FormatItem => dep in [Bcache, DiskItem, DmCrypt, LvmPartition, PartitionItem, RaidItem]
    case LvmPartition => dep == LvmVolgroup
    case LvmVolgroup => dep in [Bcache, DiskItem, DmCrypt, PartitionItem, RaidItem]
    case Mount => dep == FormatItem
    case NvmeController => false
    case PartitionItem => dep in [Bcache, DiskItem, RaidItem, PartitionItem]
    case RaidItem => dep in [Bcache, DiskItem, DmCrypt, LvmPartition, PartitionItem, RaidItem]
    case Zfs => dep == Zpool
    case Zpool => dep in [DiskItem, PartitionItem]
    case Other => false
  }

  // ----- Sorting items by a field -----

  /** Numbers by size, strings by code points; different kinds are never compared. */
  predicate ValueLe(a: Value, b: Value) {
    match (a, b)
    case (Num(m), Num(n)) => m <= n
    case (Num(_), _) => true
    case (Str(s), Str(t)) => LexLe(s, t)
    case (Str(_), Lst(_)) => true
    case (Lst(_), Lst(_)) => true
    case _ => false
  }

  predicate SameKind(a: Value, b: Value) { (a.Num? && b.Num?) || (a.Str? && b.Str?) }

  function KeyOf(item: Item, key: string): Value {
    match item.Get(key) case Some(v) => v case None => Num(0)
  }

  function ByField(key: string): (Item, Item) -> bool { (a, b) => ValueLe(KeyOf(a, key), KeyOf(b, key)) }

  function SortItems(items: seq<Item>, key: string): Result<seq<Item>, DepError> {
    if exists i :: 0 <= i < |items| && items[i].Get(key).None? then
      Err(NoOrderKey(key))
    else if |items| > 1 && exists i :: 0 <= i < |items| && !SameKind(KeyOf(items[0], key), KeyOf(items[i], key)) then
      Err(Incomparable)
    else
      Ok(Sort(items, ByField(key)))
  }

  // ----- Collecting dependencies -----

  function DepValues(v: Value): seq<string> {
    match v case Str(s) => [s] case Lst(xs) => xs case Num(_) => []
  }

  /** The items whose field `key` is the single value `dep`, in configuration order. */
  function SameDep(cfg: Config, order: seq<string>, key: string, dep: string): seq<Item>
    requires forall id :: id in order ==> id in cfg.items
  {
    if order == [] then []
    else
      var item := cfg.items[order[0]];
      (if item.Get(key) == Some(Str(dep)) then [item] else []) + SameDep(cfg, order[1..], key, dep)
  }

  function Ids(items: seq<Item>): seq<string> {
    seq(|items|, i requires 0 <= i < |items| => items[i].id)
  }

  predicate Names(v: Value, id: string) { v == Str(id) || (v.Lst? && id in v.items) }

  /** The field `key`, one of those through which the item refers to others, names `dep`, alone or in a list. */
  ghost predicate RefersTo(item: Item, key: string, dep: string) {
    UsesField(item.typ, key) && key in item.fields && Names(item.fields[key], dep)
  }

  /** References inside the configuration lead strictly down. */
  ghost predicate Ranked(cfg: Config, rank: map<string, nat>) {
    && (forall id :: id in cfg.items ==> id in rank)
    && (forall id, key, dep :: id in cfg.items && RefersTo(cfg.items[id], key, dep) && dep in cfg.items ==>
          rank[dep] < rank[id])
  }

  function FindDeps(cfg: Config, ghost rank: map<string, nat>, id: string): Result<seq<string>, DepError>
    requires cfg.Valid() && Ranked(cfg, rank) && id in cfg.items
    decreases rank[id], 2, 0
  {
    var item := cfg.items[id];
    if DepKeys(item.typ).None? || OrderKey(item.typ).None? then Err(UnknownType(item.id))
    else KeysDeps(cfg, rank, item, DepKeys(item.typ).value, |DepKeys(item.typ).value|)
  }

  /** What the first `n` dependency keys contribute. */
  function KeysDeps(cfg: Config, ghost rank: map<string, nat>, item: Item, keys: seq<string>, n: nat)
    : Result<seq<string>, DepError>
    requires cfg.Valid() && Ranked(cfg, rank) && item.id in cfg.items && item == cfg.items[item.id]
    requires OrderKey(item.typ).Some? && DepKeys(item.typ) == Some(keys) && n <= |keys|
    decreases rank[item.id], 1, n
  {
    if n == 0 then Ok([])
    else
      match KeysDeps(cfg, rank, item, keys, n - 1)
      case Err(e) => Err(e)
      case Ok(done) =>
        var key := keys[n - 1];
        if key !in item.fields then Ok(done)
        else if item.fields[key].Num? then Err(BadDependency(item.id, key))
        else
          var deps := DepValues(item.fields[key]);
          match ValuesDeps(cfg, rank, item, key, deps, |deps|)
          case Err(e) => Err(e)
          case Ok(more) => Ok(done + deps + more)
  }

  /** What the first `n` values of one key contribute: the items that share the value, and all below it. */
  function ValuesDeps(cfg: Config, ghost rank: map<string, nat>, item: Item, key: string, deps: seq<string>, n: nat)
    : Result<seq<string>, DepError>
    requires cfg.Valid() && Ranked(cfg, rank) && item.id in cfg.items && item == cfg.items[item.id]
    requires OrderKey(item.typ).Some?
    requires (forall dep :: dep in deps ==> RefersTo(item, key, dep)) && n <= |deps|
    decreases rank[item.id], 0, n
  {
    if n == 0 then Ok([])
    else
      match ValuesDeps(cfg, rank, item, key, deps, n - 1)
      case Err(e) => Err(e)
      case Ok(done) =>
        var dep := deps[n - 1];
        assert dep in deps;
        if dep !in cfg.items || !MayDependOn(item.typ, cfg.items[dep].typ) then Err(BadDependency(item.id, key))
        else
          match SortItems(SameDep(cfg, cfg.order, key, dep), OrderKey(item.typ).value)
          case Err(e) => Err(e)
          case Ok(same) =>
            match FindDeps(cfg, rank, dep)
            case Err(e) => Err(e)
            case Ok(lower) => Ok(done + Ids(same) + lower)
  }

  // ----- Trees -----

  /** `x` shares the reference to `dep` through `key`. */
  ghost predicate Shares(cfg: Config, x: string, key: string, dep: string) {
    x in cfg.items && cfg.items[x].Get(key) == Some(Str(dep))
  }

  lemma {:induction false} SameDepMembers(cfg: Config, order: seq<string>, key: string, dep: string, x: Item)
    requires forall id :: id in order ==> id in cfg.items
    ensures x in SameDep(cfg, order, key, dep) <==>
      exists i :: 0 <= i < |order| && cfg.items[order[i]] == x && x.Get(key) == Some(Str(dep))
  {
    if order != [] {
      SameDepMembers(cfg, order[1..], key, dep, x);
      if i :| 0 <= i < |order| && cfg.items[order[i]] == x && x.Get(key) == Some(Str(dep)) {
        assert i > 0 ==> order[i] == order[1..][i - 1];
      }
      if i :| 0 <= i < |order[1..]| && cfg.items[order[1..][i]] == x && x.Get(key) == Some(Str(dep)) {
        assert order[i + 1] == order[1..][i];
      }
    }
  }

  lemma SharersListed(cfg: Config, key: string, dep: string, orderKey: string, x: string)
    requires cfg.Valid() && SortItems(SameDep(cfg, cfg.order, key, dep), orderKey).Ok?
    ensures x in Ids(SortItems(SameDep(cfg, cfg.order, key, dep), orderKey).value) <==> Shares(cfg, x, key, dep)
  {
    var raw := SameDep(cfg, cfg.order, key, dep);
    var le := ByField(orderKey);
    var sorted := Sort(raw, le);
    SortPermutes(raw, le);
    PermutationFacts(raw, sorted);
    if x in Ids(sorted) {
      var k :| 0 <= k < |sorted| && sorted[k].id == x;
      assert sorted[k] in raw;
      SameDepMembers(cfg, cfg.order, key, dep, sorted[k]);
      var i :| 0 <= i < |cfg.order| && cfg.items[cfg.order[i]] == sorted[k];
      assert cfg.order[i] in cfg.order;
    }
    if Shares(cfg, x, key, dep) {
      assert x in cfg.order;
      var i :| 0 <= i < |cfg.order| && cfg.order[i] == x;
      SameDepMembers(cfg, cfg.order, key, dep, cfg.items[x]);
      assert cfg.items[x] in sorted;
      var k :| 0 <= k < |sorted| && sorted[k] == cfg.items[x];
      assert Ids(sorted)[k] == x;
    }
  }

  /** `dep` is a valid item whose own dependencies were found. */
  ghost predicate Found(cfg: Config, rank: map<string, nat>, dep: string)
    requires cfg.Valid() && Ranked(cfg, rank)
  {
    dep in cfg.items && FindDeps(cfg, rank, dep).Ok?
  }

  /** `x` is collected through a reference to `dep`: it shares the reference, or lies below. */
  ghost predicate Beside(cfg: Config, rank: map<string, nat>, key: string, dep: string, x: string)
    requires cfg.Valid() && Ranked(cfg, rank)
  {
    Shares(cfg, x, key, dep) || (Found(cfg, rank, dep) && x in FindDeps(cfg, rank, dep).value)
  }

  lemma ValuesStep(cfg: Config, rank: map<string, nat>, item: Item, key: string, deps: seq<string>, n: nat)
    requires cfg.Valid() && Ranked(cfg, rank) && item.id in cfg.items && item == cfg.items[item.id]
    requires OrderKey(item.typ).Some?
    requires (forall dep :: dep in deps ==> RefersTo(item, key, dep)) && 0 < n <= |deps|
    requires ValuesDeps(cfg, rank, item, key, deps, n).Ok?
    ensures ValuesDeps(cfg, rank, item, key, deps, n - 1).Ok? && Found(cfg, rank, deps[n - 1])
    ensures var same := SortItems(SameDep(cfg, cfg.order, key, deps[n - 1]), OrderKey(item.typ).value);
      same.Ok? && ValuesDeps(cfg, rank, item, key, deps, n).value
        == ValuesDeps(cfg, rank, item, key, deps, n - 1).value + Ids(same.value)
           + FindDeps(cfg, rank, deps[n - 1]).value
  {
    assert deps[n - 1] in deps;
  }

  /** The first `n` values were found. */
  ghost predicate FirstFound(cfg: Config, rank: map<string, nat>, deps: seq<string>, n: nat)
    requires cfg.Valid() && Ranked(cfg, rank) && n <= |deps|
  {
    forall i :: 0 <= i < n ==> Found(cfg, rank, deps[i])
  }

  /** `x` is collected through one of the first `n` values. */
  ghost predicate BesideSome(cfg: Config, rank: map<string, nat>, key: string, deps: seq<string>, n: nat, x: string)
    requires cfg.Valid() && Ranked(cfg, rank) && n <= |deps|
  {
    exists i :: 0 <= i < n && Beside(cfg, rank, key, deps[i], x)
  }

  lemma OneMore(cfg: Config, rank: map<string, nat>, key: string, deps: seq<string>, n: nat, x: string)
    requires cfg.Valid() && Ranked(cfg, rank) && 0 < n <= |deps|
    ensures FirstFound(cfg, rank, deps, n) <==> FirstFound(cfg, rank, deps, n - 1) && Found(cfg, rank, deps[n - 1])
    ensures BesideSome(cfg, rank, key, deps, n, x) <==>
      BesideSome(cfg, rank, key, deps, n - 1, x) || Beside(cfg, rank, key, deps[n - 1], x)
  {
  }

  lemma LastValue(cfg: Config, rank: map<string, nat>, item: Item, key: string, deps: seq<string>, n: nat, x: string)
    requires cfg.Valid() && Ranked(cfg, rank) && item.id in cfg.items && item == cfg.items[item.id]
    requires OrderKey(item.typ).Some?
    requires (forall dep :: dep in deps ==> RefersTo(item, key, dep)) && 0 < n <= |deps|
    requires ValuesDeps(cfg, rank, item, key, deps, n).Ok?
    ensures ValuesDeps(cfg, rank, item, key, deps, n - 1).Ok? && Found(cfg, rank, deps[n - 1])
    ensures x in ValuesDeps(cfg, rank, item, key, deps, n).value <==>
      x in ValuesDeps(cfg, rank, item, key, deps, n - 1).value || Beside(cfg, rank, key, deps[n - 1], x)
  {
    ValuesStep(cfg, rank, item, key, deps, n);
    SharersListed(cfg, key, deps[n - 1], OrderKey(item.typ).value, x);
  }

  lemma {:induction false} ValuesDepsMembers(cfg: Config, rank: map<string, nat>, item: Item, key: string,
                                             deps: seq<string>, n: nat, x: string)
    requires cfg.Valid() && Ranked(cfg, rank) && item.id in cfg.items && item == cfg.items[item.id]
    requires OrderKey(item.typ).Some?
    requires (forall dep :: dep in deps ==> RefersTo(item, key, dep)) && n <= |deps|
    requires ValuesDeps(cfg, rank, item, key, deps, n).Ok?
    ensures FirstFound(cfg, rank, deps, n)
    ensures x in ValuesDeps(cfg, rank, item, key, deps, n).value <==> BesideSome(cfg, rank, key, deps, n, x)
  {
    if n > 0 {
      LastValue(cfg, rank, item, key, deps, n, x);
      ValuesDepsMembers(cfg, rank, item, key, deps, n - 1, x);
      OneMore(cfg, rank, key, deps, n, x);
    }
  }

  /** What one key of `item` leads to. */
  ghost predicate ByKey(cfg: Config, rank: map<string, nat>, item: Item, key: string, x: string)
    requires cfg.Valid() && Ranked(cfg, rank)
  {
    exists dep :: RefersTo(item, key, dep) && (x == dep || Beside(cfg, rank, key, dep, x))
  }

  ghost predicate KeyFound(cfg: Config, rank: map<string, nat>, item: Item, key: string)
    requires cfg.Valid() && Ranked(cfg, rank)
  {
    forall dep :: RefersTo(item, key, dep) ==> Found(cfg, rank, dep)
  }

  lemma OneKeyMembers(cfg: Config, rank: map<string, nat>, item: Item, key: string, deps: seq<string>, x: string)
    requires cfg.Valid() && Ranked(cfg, rank) && key in item.fields && deps == DepValues(item.fields[key])
    requires DepKeys(item.typ).Some? && key in DepKeys(item.typ).value
    ensures (x in deps || BesideSome(cfg, rank, key, deps, |deps|, x)) <==> ByKey(cfg, rank, item, key, x)
  {
    if i :| 0 <= i < |deps| && Beside(cfg, rank, key, deps[i], x) {
      assert RefersTo(item, key, deps[i]);
    }
    if x in deps {
      assert RefersTo(item, key, x);
    }
    if dep :| RefersTo(item, key, dep) && (x == dep || Beside(cfg, rank, key, dep, x)) {
      var i :| 0 <= i < |deps| && deps[i] == dep;
    }
  }

  lemma KeysStep(cfg: Config, rank: map<string, nat>, item: Item, keys: seq<string>, n: nat, x: string)
    requires cfg.Valid() && Ranked(cfg, rank) && item.id in cfg.items && item == cfg.items[item.id]
    requires OrderKey(item.typ).Some? && DepKeys(item.typ) == Some(keys) && 0 < n <= |keys|
    requires KeysDeps(cfg, rank, item, keys, n).Ok?
    ensures KeysDeps(cfg, rank, item, keys, n - 1).Ok? && KeyFound(cfg, rank, item, keys[n - 1])
    ensures x in KeysDeps(cfg, rank, item, keys, n).value <==>
      x in KeysDeps(cfg, rank, item, keys, n - 1).value || ByKey(cfg, rank, item, keys[n - 1], x)
  {
    var key := keys[n - 1];
    if key in item.fields {
      var deps := DepValues(item.fields[key]);
      ValuesDepsMembers(cfg, rank, item, key, deps, |deps|, x);
      forall dep | RefersTo(item, key, dep) ensures Found(cfg, rank, dep) {
        var i :| 0 <= i < |deps| && deps[i] == dep;
      }
      OneKeyMembers(cfg, rank, item, key, deps, x);
    }
  }

  /** Every reference through one of the first `n` keys was found. */
  ghost predicate FirstKeysFound(cfg: Config, rank: map<string, nat>, item: Item, keys: seq<string>, n: nat)
    requires cfg.Valid() && Ranked(cfg, rank) && n <= |keys|
  {
    forall i :: 0 <= i < n ==> KeyFound(cfg, rank, item, keys[i])
  }

  /** `x` is collected through one of the first `n` keys. */
  ghost predicate BySomeKey(cfg: Config, rank: map<string, nat>, item: Item, keys: seq<string>, n: nat, x: string)
    requires cfg.Valid() && Ranked(cfg, rank) && n <= |keys|
  {
    exists i :: 0 <= i < n && ByKey(cfg, rank, item, keys[i], x)
  }

  lemma OneMoreKeyFound(cfg: Config, rank: map<string, nat>, item: Item, keys: seq<string>, n: nat)
    requires cfg.Valid() && Ranked(cfg, rank) && 0 < n <= |keys|
    ensures FirstKeysFound(cfg, rank, item, keys, n) <==>
      FirstKeysFound(cfg, rank, item, keys, n - 1) && KeyFound(cfg, rank, item, keys[n - 1])
  {
  }

  lemma OneMoreKey(cfg: Config, rank: map<string, nat>, item: Item, keys: seq<string>, n: nat, x: string)
    requires cfg.Valid() && Ranked(cfg, rank) && 0 < n <= |keys|
    ensures BySomeKey(cfg, rank, item, keys, n, x) <==>
      BySomeKey(cfg, rank, item, keys, n - 1, x) || ByKey(cfg, rank, item, keys[n - 1], x)
  {
  }

  lemma {:induction false} KeysDepsMembers(cfg: Config, rank: map<string, nat>, item: Item, keys: seq<string>, n: nat,
                                           x: string)
    requires cfg.Valid() && Ranked(cfg, rank) && item.id in cfg.items && item == cfg.items[item.id]
    requires OrderKey(item.typ).Some? && DepKeys(item.typ) == Some(keys) && n <= |keys|
    requires KeysDeps(cfg, rank, item, keys, n).Ok?
    ensures FirstKeysFound(cfg, rank, item, keys, n)
    ensures x in KeysDeps(cfg, rank, item, keys, n).value <==> BySomeKey(cfg, rank, item, keys, n, x)
  {
    if n > 0 {
      KeysStep(cfg, rank, item, keys, n, x);
      KeysDepsMembers(cfg, rank, item, keys, n - 1, x);
      OneMoreKeyFound(cfg, rank, item, keys, n);
      OneMoreKey(cfg, rank, item, keys, n, x);
    }
  }

  /** What is collected for an item: the targets of its references, the items that share them, and all below. */
  lemma FindDepsMembers(cfg: Config, rank: map<string, nat>, id: string, x: string)
    requires cfg.Valid() && Ranked(cfg, rank) && Found(cfg, rank, id)
    ensures forall key, dep :: RefersTo(cfg.items[id], key, dep) ==> Found(cfg, rank, dep)
    ensures x in FindDeps(cfg, rank, id).value <==>
      exists key, dep :: RefersTo(cfg.items[id], key, dep) && (x == dep || Beside(cfg, rank, key, dep, x))
  {
    var item := cfg.items[id];
    var keys := DepKeys(item.typ).value;
    KeysDepsMembers(cfg, rank, item, keys, |keys|, x);
    forall key, dep | RefersTo(item, key, dep) ensures Found(cfg, rank, dep) {
      var i :| 0 <= i < |keys| && keys[i] == key;
      assert KeyFound(cfg, rank, item, keys[i]);
    }
    if i :| 0 <= i < |keys| && ByKey(cfg, rank, item, keys[i], x) {
      var dep :| RefersTo(item, keys[i], dep) && (x == dep || Beside(cfg, rank, keys[i], dep, x));
    }
    if key, dep :| RefersTo(item, key, dep) && (x == dep || Beside(cfg, rank, key, dep, x)) {
      var i :| 0 <= i < |keys| && keys[i] == key;
      assert ByKey(cfg, rank, item, keys[i], x);
    }
  }
}
