/** Listing configurations level by level, each level by type and then by the field its type is ordered by. */
module StorageSort {
  import opened Wrappers
  import opened Sorting
  import opened StorageDeps

  /** Types by name. */
  function TypeIndex(t: ItemType): (n: nat)
    ensures n <= 13
  {
    match t
    case Bcache => 0
    case Dasd => 1
    case DiskItem => 2
    case DmCrypt => 3
    case FormatItem => 4
    case LvmPartition => 5
    case LvmVolgroup => 6
    case Mount => 7
    case NvmeController => 8
    case PartitionItem => 9
    case RaidItem => 10
    case Zfs => 11
    case Zpool => 12
    case Other => 13
  }

  const TYPES: nat := 14

  /** The `k`-th type by name. */
  function TypeAt(k: nat): (t: ItemType)
    requires k < TYPES
    ensures TypeIndex(t) == k && forall u :: TypeIndex(u) == k ==> u == t
  {
    if k == 0 then Bcache else if k == 1 then Dasd else if k == 2 then DiskItem else if k == 3 then DmCrypt
    else if k == 4 then FormatItem else if k == 5 then LvmPartition else if k == 6 then LvmVolgroup
    else if k == 7 then Mount else if k == 8 then NvmeController else if k == 9 then PartitionItem
    else if k == 10 then RaidItem else if k == 11 then Zfs else if k == 12 then Zpool else Other
  }

  // ----- Selecting from a list -----

  function Select(items: seq<Item>, p: Item -> bool): seq<Item> {
    if items == [] then []
    else Select(items[..|items| - 1], p) + (if p(items[|items| - 1]) then [items[|items| - 1]] else [])
  }

  lemma {:induction false} SelectCounts(items: seq<Item>, p: Item -> bool, x: Item)
    ensures multiset(Select(items, p))[x] == if p(x) then multiset(items)[x] else 0
  {
    if items != [] {
      var init, last := items[..|items| - 1], items[|items| - 1];
      SelectCounts(init, p, x);
      assert items == init + [last];
    }
  }

  lemma SelectMembers(items: seq<Item>, p: Item -> bool, x: Item)
    ensures x in Select(items, p) <==> x in items && p(x)
  {
    SelectCounts(items, p, x);
    assert x in Select(items, p) <==> x in multiset(Select(items, p));
    assert x in items <==> x in multiset(items);
  }

  lemma {:induction false} SelectRising(items: seq<Item>, p: Item -> bool, pos: Item -> nat)
    requires Rising(items, pos)
    ensures Rising(Select(items, p), pos)
  {
    if items != [] {
      var init, last := items[..|items| - 1], items[|items| - 1];
      SelectRising(init, p, pos);
      forall x | x in Select(init, p) ensures pos(x) <= pos(last) {
        SelectMembers(init, p, x);
        var i :| 0 <= i < |init| && init[i] == x;
        assert items[i] == x;
      }
    }
  }

  /** What satisfies `q` splits into what satisfies `p` and what satisfies `r`. */
  lemma SelectSplits(items: seq<Item>, p: Item -> bool, r: Item -> bool, q: Item -> bool)
    requires forall x :: q(x) <==> p(x) || r(x)
    requires forall x :: !(p(x) && r(x))
    ensures multiset(Select(items, q)) == multiset(Select(items, p)) + multiset(Select(items, r))
  {
    forall x ensures multiset(Select(items, q))[x] == (multiset(Select(items, p)) + multiset(Select(items, r)))[x] {
      SelectCounts(items, p, x);
      SelectCounts(items, r, x);
      SelectCounts(items, q, x);
    }
  }

  lemma SelectAll(items: seq<Item>, p: Item -> bool)
    requires forall x :: x in items ==> p(x)
    ensures multiset(Select(items, p)) == multiset(items)
  {
    forall x ensures multiset(Select(items, p))[x] == multiset(items)[x] {
      SelectCounts(items, p, x);
      assert x in items <==> x in multiset(items);
    }
  }

  lemma OrderedConcat<T>(a: seq<T>, b: seq<T>, le: (T, T) -> bool)
    requires Ordered(a, le) && Ordered(b, le) && forall x, y :: x in a && y in b ==> le(x, y)
    ensures Ordered(a + b, le)
  {
    forall i, j | 0 <= i < j < |a + b| ensures le((a + b)[i], (a + b)[j]) {
      if i < |a| && |a| <= j {
        assert (a + b)[i] in a && (a + b)[j] in b;
      }
    }
  }

  function BelowType(k: nat): Item -> bool { (x: Item) => TypeIndex(x.typ) < k }

  function HasType(t: ItemType): Item -> bool { (x: Item) => x.typ == t }

  lemma SelectNone(items: seq<Item>, p: Item -> bool)
    requires forall x :: !p(x)
    ensures Select(items, p) == []
  {
    if Select(items, p) != [] {
      SelectMembers(items, p, Select(items, p)[0]);
    }
  }

  // ----- Sorting one level -----

  function OrderField(t: ItemType): string {
    match OrderKey(t) case Some(k) => k case None => "id"
  }

  /** By type name, then by the field the type is ordered by. */
  predicate TypeKeyLe(a: Item, b: Item) {
    TypeIndex(a.typ) < TypeIndex(b.typ)
    || (a.typ == b.typ && ValueLe(KeyOf(a, OrderField(a.typ)), KeyOf(b, OrderField(a.typ))))
  }

  lemma ValueLeOrder(a: Value, b: Value, c: Value)
    ensures ValueLe(a, b) || ValueLe(b, a)
    ensures ValueLe(a, b) && ValueLe(b, c) ==> ValueLe(a, c)
  {
    if a.Str? && b.Str? {
      LexTotal(a.s, b.s);
      if c.Str? && LexLe(a.s, b.s) && LexLe(b.s, c.s) {
        LexTransitive(a.s, b.s, c.s);
      }
    }
  }

  lemma SortedItems(items: seq<Item>, key: string, pos: Item -> nat)
    requires SortItems(items, key).Ok? && Rising(items, pos)
    ensures multiset(SortItems(items, key).value) == multiset(items)
    ensures Ordered(SortItems(items, key).value, Tied(ByField(key), pos))
  {
    var le := ByField(key);
    forall a: Item, b: Item, c: Item
      ensures le(a, b) || le(b, a)
      ensures le(a, b) && le(b, c) ==> le(a, c)
    {
      ValueLeOrder(KeyOf(a, key), KeyOf(b, key), KeyOf(c, key));
    }
    SortPermutes(items, le);
    SortStable(items, le, pos);
  }

  /** The configurations of one type, sorted by the field that type is ordered by. */
  function SortGroup(configs: seq<Item>, t: ItemType): Result<seq<Item>, DepError> {
    var group := Select(configs, HasType(t));
    if group == [] then Ok([])
    else if OrderKey(t).None? then Err(UnknownType(group[0].id))
    else SortItems(group, OrderField(t))
  }

  ghost predicate Grouped(configs: seq<Item>, result: seq<Item>, k: nat, pos: Item -> nat) {
    multiset(result) == multiset(Select(configs, BelowType(k))) && Ordered(result, Tied(TypeKeyLe, pos))
  }

  /** The items can be sorted by a field together: the first has it, and unless they are the same item
      the two values can be compared. */
  ghost predicate ComparableBy(key: string, a: Item, b: Item) {
    a.Get(key).Some? && (a == b || SameKind(KeyOf(a, key), KeyOf(b, key)))
  }

  ghost predicate Comparable(a: Item, b: Item) {
    OrderKey(a.typ).Some? && ComparableBy(OrderField(a.typ), a, b)
  }

  lemma SortableItems(items: seq<Item>, key: string)
    requires NoDup(items)
    ensures SortItems(items, key).Ok? <==> forall x, y :: x in items && y in items ==> ComparableBy(key, x, y)
  {
    if SortItems(items, key).Ok? {
      forall x | x in items
        ensures x.Get(key).Some? && (|items| > 1 ==> SameKind(KeyOf(items[0], key), KeyOf(x, key)))
      {
        var i :| 0 <= i < |items| && items[i] == x;
      }
    }
    if forall x, y :: x in items && y in items ==> ComparableBy(key, x, y) {
      forall i | 0 <= i < |items|
        ensures items[i].Get(key).Some? && (|items| > 1 ==> SameKind(KeyOf(items[0], key), KeyOf(items[i], key)))
      {
        assert ComparableBy(key, items[i], items[0]);
        if |items| > 1 {
          assert ComparableBy(key, items[0], items[1]);
        }
      }
    }
  }

  lemma SelectNoDup(items: seq<Item>, p: Item -> bool)
    requires NoDup(items)
    ensures NoDup(Select(items, p))
  {
    var picked := Select(items, p);
    if i, j :| 0 <= i < j < |picked| && picked[i] == picked[j] {
      DuplicateCounts(picked, i, j);
      SelectCounts(items, p, picked[i]);
      NoDupCounts(items, picked[i]);
    }
  }

  ghost predicate TypeComparable(items: seq<Item>, t: ItemType) {
    forall x, y :: x in items && y in items && x.typ == t && y.typ == t ==> Comparable(x, y)
  }

  lemma GroupComparable(configs: seq<Item>, group: seq<Item>, t: ItemType)
    requires forall x :: x in group <==> x in configs && x.typ == t
    ensures TypeComparable(configs, t) <==>
      || group == []
      || (OrderKey(t).Some? && forall x, y :: x in group && y in group ==> ComparableBy(OrderField(t), x, y))
  {
    if group != [] {
      assert group[0] in group;
    }
    if TypeComparable(configs, t) {
      forall x, y | x in group && y in group ensures OrderKey(t).Some? && ComparableBy(OrderField(t), x, y) {
        assert Comparable(x, y);
      }
    }
  }

  lemma SortableGroup(configs: seq<Item>, t: ItemType)
    requires NoDup(configs)
    ensures SortGroup(configs, t).Ok? <==> TypeComparable(configs, t)
  {
    var group := Select(configs, HasType(t));
    SelectNoDup(configs, HasType(t));
    forall x ensures x in group <==> x in configs && x.typ == t {
      SelectMembers(configs, HasType(t), x);
    }
    GroupComparable(configs, group, t);
    SortableItems(group, OrderField(t));
  }

  /** Every group of one level can be sorted. */
  ghost predicate Groupable(configs: seq<Item>, n: nat)
    requires n <= TYPES
  {
    forall k :: 0 <= k < n ==> SortGroup(configs, TypeAt(k)).Ok?
  }

  lemma GroupableExactly(configs: seq<Item>)
    requires NoDup(configs)
    ensures Groupable(configs, TYPES) <==>
      forall x, y :: x in configs && y in configs && x.typ == y.typ ==> Comparable(x, y)
  {
    forall k | 0 <= k < TYPES ensures SortGroup(configs, TypeAt(k)).Ok? <==> TypeComparable(configs, TypeAt(k)) {
      SortableGroup(configs, TypeAt(k));
    }
    if Groupable(configs, TYPES) {
      forall x, y | x in configs && y in configs && x.typ == y.typ ensures Comparable(x, y) {
        assert TypeAt(TypeIndex(x.typ)) == x.typ;
        assert TypeComparable(configs, TypeAt(TypeIndex(x.typ)));
      }
    }
  }

  /** Within one type the type's field alone decides. */
  lemma OneTypeOrdered(sorted: seq<Item>, t: ItemType, pos: Item -> nat)
    requires Ordered(sorted, Tied(ByField(OrderField(t)), pos)) && forall x :: x in sorted ==> x.typ == t
    ensures Ordered(sorted, Tied(TypeKeyLe, pos))
  {
    forall i, j | 0 <= i < j < |sorted| ensures Tied(TypeKeyLe, pos)(sorted[i], sorted[j]) {
      var x, y := sorted[i], sorted[j];
      assert x in sorted && y in sorted;
      assert Tied(ByField(OrderField(t)), pos)(x, y);
      assert ByField(OrderField(t))(x, y) == TypeKeyLe(x, y) && ByField(OrderField(t))(y, x) == TypeKeyLe(y, x);
    }
  }

  lemma GroupMembers(configs: seq<Item>, t: ItemType, sorted: seq<Item>)
    requires multiset(sorted) == multiset(Select(configs, HasType(t)))
    ensures forall x :: x in sorted ==> x.typ == t
  {
    PermutationFacts(sorted, Select(configs, HasType(t)));
    forall x | x in sorted ensures x.typ == t {
      SelectMembers(configs, HasType(t), x);
    }
  }

  lemma GroupSorted(configs: seq<Item>, t: ItemType, pos: Item -> nat)
    requires SortGroup(configs, t).Ok? && Rising(configs, pos)
    ensures multiset(SortGroup(configs, t).value) == multiset(Select(configs, HasType(t)))
    ensures Ordered(SortGroup(configs, t).value, Tied(TypeKeyLe, pos))
    ensures forall x :: x in SortGroup(configs, t).value ==> x.typ == t
  {
    var group, sorted := Select(configs, HasType(t)), SortGroup(configs, t).value;
    if group != [] {
      SelectRising(configs, HasType(t), pos);
      SortedItems(group, OrderField(t), pos);
      GroupMembers(configs, t, sorted);
      OneTypeOrdered(sorted, t, pos);
    }
  }

  lemma BelowTypes(configs: seq<Item>, result: seq<Item>, k: nat)
    requires multiset(result) == multiset(Select(configs, BelowType(k)))
    ensures forall x :: x in result ==> TypeIndex(x.typ) < k
  {
    PermutationFacts(result, Select(configs, BelowType(k)));
    forall x | x in result ensures TypeIndex(x.typ) < k {
      SelectMembers(configs, BelowType(k), x);
    }
  }

  lemma TypesConcat(lower: seq<Item>, group: seq<Item>, k: nat, pos: Item -> nat)
    requires Ordered(lower, Tied(TypeKeyLe, pos)) && Ordered(group, Tied(TypeKeyLe, pos))
    requires (forall x :: x in lower ==> TypeIndex(x.typ) < k) && forall y :: y in group ==> TypeIndex(y.typ) == k
    ensures Ordered(lower + group, Tied(TypeKeyLe, pos))
  {
    forall x, y | x in lower && y in group ensures Tied(TypeKeyLe, pos)(x, y) {
      assert TypeKeyLe(x, y) && !TypeKeyLe(y, x);
    }
    OrderedConcat(lower, group, Tied(TypeKeyLe, pos));
  }

  lemma GroupAppended(configs: seq<Item>, result: seq<Item>, k: nat, pos: Item -> nat)
    requires k < TYPES && Rising(configs, pos) && Grouped(configs, result, k, pos) && SortGroup(configs, TypeAt(k)).Ok?
    ensures Grouped(configs, result + SortGroup(configs, TypeAt(k)).value, k + 1, pos)
  {
    var group := SortGroup(configs, TypeAt(k)).value;
    GroupSorted(configs, TypeAt(k), pos);
    assert multiset(result + group) == multiset(Select(configs, BelowType(k + 1))) by {
      SelectSplits(configs, BelowType(k), HasType(TypeAt(k)), BelowType(k + 1));
    }
    BelowTypes(configs, result, k);
    TypesConcat(result, group, k, pos);
  }

  /** One more group, for the `k`-th type by name. */
  method AppendGroup(configs: seq<Item>, result: seq<Item>, k: nat, ghost pos: Item -> nat)
    returns (r: Result<seq<Item>, DepError>)
    requires k < TYPES && Rising(configs, pos) && Grouped(configs, result, k, pos)
    ensures r.Ok? <==> SortGroup(configs, TypeAt(k)).Ok?
    ensures r.Ok? ==> Grouped(configs, r.value, k + 1, pos)
  {
    var group := SortGroup(configs, TypeAt(k));
    if group.Err? {
      return Err(group.error);
    }
    GroupAppended(configs, result, k, pos);
    r := Ok(result + group.value);
  }

  lemma GroupedNone(configs: seq<Item>, pos: Item -> nat)
    ensures Grouped(configs, [], 0, pos)
  {
    SelectNone(configs, BelowType(0));
  }

  lemma GroupedAll(configs: seq<Item>, result: seq<Item>, pos: Item -> nat)
    requires Grouped(configs, result, TYPES, pos)
    ensures multiset(result) == multiset(configs) && Ordered(result, Tied(TypeKeyLe, pos))
  {
    SelectAll(configs, BelowType(TYPES));
  }

  /** The configurations of one level grouped by type, each group sorted, the groups in order of type name.
      Ties stand in the order in which the configurations came; `pos` is any numbering that rises with it. */
  method SortLevel(configs: seq<Item>, ghost pos: Item -> nat) returns (r: Result<seq<Item>, DepError>)
    requires Rising(configs, pos)
    ensures r.Ok? <==> Groupable(configs, TYPES)
    ensures r.Ok? ==> multiset(r.value) == multiset(configs) && Ordered(r.value, Tied(TypeKeyLe, pos))
  {
    var result: seq<Item> := [];
    GroupedNone(configs, pos);
    for k := 0 to TYPES
      invariant Grouped(configs, result, k, pos) && Groupable(configs, k)
    {
      var next := AppendGroup(configs, result, k, pos);
      if next.Err? {
        return Err(next.error);
      }
      result := next.value;
    }
    GroupedAll(configs, result, pos);
    r := Ok(result);
  }

  // ----- The registry and the list -----

  /** The registry is a dict from id to level; `order` is its order of insertion. */
  datatype Registry = Registry(order: seq<Item>, levels: map<string, nat>)

  function LevelOf(levels: map<string, nat>, x: Item): nat { if x.id in levels then levels[x.id] else 0 }

  /** By level, then by type name, then by field. */
  predicate ListLe(levels: map<string, nat>, a: Item, b: Item) {
    LevelOf(levels, a) < LevelOf(levels, b) || (LevelOf(levels, a) == LevelOf(levels, b) && TypeKeyLe(a, b))
  }

  function BelowLevel(levels: map<string, nat>, lvl: nat): Item -> bool { x => LevelOf(levels, x) < lvl }

  function AtLevel(levels: map<string, nat>, lvl: nat): Item -> bool { x => LevelOf(levels, x) == lvl }

  function ByList(levels: map<string, nat>): (Item, Item) -> bool { (a, b) => ListLe(levels, a, b) }

  /** Items of one level and one type can be sorted together. */
  ghost predicate LevelsComparable(reg: Registry) {
    forall x, y ::
      x in reg.order && y in reg.order && LevelOf(reg.levels, x) == LevelOf(reg.levels, y) && x.typ == y.typ ==>
        Comparable(x, y)
  }

  /** So it is on the levels below `lvl`. */
  ghost predicate LowerComparable(reg: Registry, lvl: nat) {
    forall x, y ::
      x in reg.order && y in reg.order && LevelOf(reg.levels, x) == LevelOf(reg.levels, y) < lvl && x.typ == y.typ ==>
        Comparable(x, y)
  }

  lemma OneLevel(reg: Registry, lvl: nat)
    requires NoDup(reg.order)
    ensures LowerComparable(reg, lvl + 1) <==>
      LowerComparable(reg, lvl) && Groupable(Select(reg.order, AtLevel(reg.levels, lvl)), TYPES)
  {
    var configs := Select(reg.order, AtLevel(reg.levels, lvl));
    SelectNoDup(reg.order, AtLevel(reg.levels, lvl));
    GroupableExactly(configs);
    forall x ensures x in configs <==> x in reg.order && LevelOf(reg.levels, x) == lvl {
      SelectMembers(reg.order, AtLevel(reg.levels, lvl), x);
    }
  }

  lemma LevelMembers(reg: Registry, merged: seq<Item>, lvl: nat, level: seq<Item>)
    requires multiset(merged) == multiset(Select(reg.order, BelowLevel(reg.levels, lvl)))
    requires multiset(level) == multiset(Select(reg.order, AtLevel(reg.levels, lvl)))
    ensures forall x :: x in merged ==> LevelOf(reg.levels, x) < lvl
    ensures forall x :: x in level ==> LevelOf(reg.levels, x) == lvl
  {
    PermutationFacts(merged, Select(reg.order, BelowLevel(reg.levels, lvl)));
    PermutationFacts(level, Select(reg.order, AtLevel(reg.levels, lvl)));
    forall x ensures (x in merged ==> LevelOf(reg.levels, x) < lvl) && (x in level ==> LevelOf(reg.levels, x) == lvl) {
      SelectMembers(reg.order, BelowLevel(reg.levels, lvl), x);
      SelectMembers(reg.order, AtLevel(reg.levels, lvl), x);
    }
  }

  lemma LevelsConcat(levels: map<string, nat>, merged: seq<Item>, lvl: nat, level: seq<Item>, pos: Item -> nat)
    requires forall x :: x in merged ==> LevelOf(levels, x) < lvl
    requires forall x :: x in level ==> LevelOf(levels, x) == lvl
    requires Ordered(merged, Tied(ByList(levels), pos)) && Ordered(level, Tied(TypeKeyLe, pos))
    ensures Ordered(merged + level, Tied(ByList(levels), pos))
  {
    var le := Tied(ByList(levels), pos);
    forall i, j | 0 <= i < j < |level| ensures le(level[i], level[j]) {
      assert level[i] in level && level[j] in level;
      assert Tied(TypeKeyLe, pos)(level[i], level[j]);
    }
    OrderedConcat(merged, level, le);
  }

  lemma LevelAppended(reg: Registry, merged: seq<Item>, lvl: nat, level: seq<Item>, pos: Item -> nat)
    requires multiset(merged) == multiset(Select(reg.order, BelowLevel(reg.levels, lvl)))
    requires multiset(level) == multiset(Select(reg.order, AtLevel(reg.levels, lvl)))
    requires Ordered(merged, Tied(ByList(reg.levels), pos)) && Ordered(level, Tied(TypeKeyLe, pos))
    ensures multiset(merged + level) == multiset(Select(reg.order, BelowLevel(reg.levels, lvl + 1)))
    ensures Ordered(merged + level, Tied(ByList(reg.levels), pos))
  {
    assert multiset(merged + level) == multiset(Select(reg.order, BelowLevel(reg.levels, lvl + 1))) by {
      SelectSplits(reg.order, BelowLevel(reg.levels, lvl), AtLevel(reg.levels, lvl), BelowLevel(reg.levels, lvl + 1));
    }
    LevelMembers(reg, merged, lvl, level);
    LevelsConcat(reg.levels, merged, lvl, level, pos);
  }

  /** The registry level by level. Ties of level, type and field stand in the order of registration. */
  method ListByLevel(reg: Registry, maxLevel: nat, ghost pos: Item -> nat) returns (r: Result<seq<Item>, DepError>)
    requires NoDup(reg.order) && Rising(reg.order, pos)
    requires forall x :: x in reg.order ==> LevelOf(reg.levels, x) <= maxLevel
    ensures r.Ok? <==> LevelsComparable(reg)
    ensures r.Ok? ==> multiset(r.value) == multiset(reg.order)
    ensures r.Ok? ==> Ordered(r.value, Tied(ByList(reg.levels), pos))
  {
    var merged: seq<Item> := [];
    SelectNone(reg.order, BelowLevel(reg.levels, 0));
    for lvl := 0 to maxLevel + 1
      invariant multiset(merged) == multiset(Select(reg.order, BelowLevel(reg.levels, lvl)))
      invariant Ordered(merged, Tied(ByList(reg.levels), pos)) && LowerComparable(reg, lvl)
    {
      var configs := Select(reg.order, AtLevel(reg.levels, lvl));
      OneLevel(reg, lvl);
      SelectRising(reg.order, AtLevel(reg.levels, lvl), pos);
      var sorted := SortLevel(configs, pos);
      if sorted.Err? {
        return Err(sorted.error);
      }
      LevelAppended(reg, merged, lvl, sorted.value, pos);
      merged := merged + sorted.value;
    }
    SelectAll(reg.order, BelowLevel(reg.levels, maxLevel + 1));
    r := Ok(merged);
  }
}
