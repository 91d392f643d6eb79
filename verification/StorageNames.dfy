/** The order within one level in plain terms: by the name of the type, then by the value of a field. */
module StorageNames {
  import opened Wrappers
  import opened Sorting
  import opened StorageDeps
  import opened StorageSort

  function TypeName(t: ItemType): string {
    match t
    case Bcache => "bcache"
    case Dasd => "dasd"
    case DiskItem => "disk"
    case DmCrypt => "dm_crypt"
    case FormatItem => "format"
    case LvmPartition => "lvm_partition"
    case LvmVolgroup => "lvm_volgroup"
    case Mount => "mount"
    case NvmeController => "nvme_controller"
    case PartitionItem => "partition"
    case RaidItem => "raid"
    case Zfs => "zfs"
    case Zpool => "zpool"
    case Other => ""
  }

  /** Where the name of each type and the next one's first differ. */
  function DifferAt(k: nat): nat {
    if k == 1 || k == 2 || k == 11 then 1 else if k == 5 then 4 else 0
  }

  lemma NextName(k: nat)
    requires k < 12
    ensures SmallerAt(TypeName(TypeAt(k)), TypeName(TypeAt(k + 1)), DifferAt(k))
  {
    if k == 5 {
      assert "lvm_partition"[..4] == "lvm_" == "lvm_volgroup"[..4];
    } else if DifferAt(k) == 1 {
      assert TypeName(TypeAt(k))[..1] == [TypeName(TypeAt(k))[0]];
      assert TypeName(TypeAt(k + 1))[..1] == [TypeName(TypeAt(k + 1))[0]];
    }
  }

  lemma {:induction false} NamesRise(j: nat, k: nat)
    requires j <= k < 13
    ensures LexLe(TypeName(TypeAt(j)), TypeName(TypeAt(k)))
    decreases k
  {
    LexTotal(TypeName(TypeAt(k)), TypeName(TypeAt(k)));
    if j < k {
      NamesRise(j, k - 1);
      NextName(k - 1);
      LexIs(TypeName(TypeAt(k - 1)), TypeName(TypeAt(k)));
      LexTransitive(TypeName(TypeAt(j)), TypeName(TypeAt(k - 1)), TypeName(TypeAt(k)));
    }
  }

  /** Types are walked in the order of their names. */
  lemma TypesByName(s: ItemType, t: ItemType)
    requires s != Other && t != Other && TypeIndex(s) <= TypeIndex(t)
    ensures LexBefore(TypeName(s), TypeName(t))
  {
    assert TypeAt(TypeIndex(s)) == s && TypeAt(TypeIndex(t)) == t;
    NamesRise(TypeIndex(s), TypeIndex(t));
    LexIs(TypeName(s), TypeName(t));
  }

  /** Numbers by size, strings by their characters. */
  ghost predicate ValueBefore(v: Value, w: Value) {
    (v.Num? && w.Num? && v.n <= w.n) || (v.Str? && w.Str? && LexBefore(v.s, w.s))
  }

  /** By the name of the type; items of one type by the field that type is ordered by. */
  ghost predicate SortsBefore(x: Item, y: Item) {
    && LexBefore(TypeName(x.typ), TypeName(y.typ))
    && (x.typ == y.typ && x != y ==>
          exists field, v, w :: OrderKey(x.typ) == Some(field)
            && x.Get(field) == Some(v) && y.Get(field) == Some(w) && ValueBefore(v, w))
  }

  lemma SortsByName(x: Item, y: Item)
    requires x.typ != Other && y.typ != Other && TypeKeyLe(x, y)
    requires x.typ == y.typ ==> Comparable(x, y) && Comparable(y, x)
    ensures SortsBefore(x, y)
  {
    TypesByName(x.typ, y.typ);
    if x.typ == y.typ && x != y {
      var field := OrderField(x.typ);
      var v, w := KeyOf(x, field), KeyOf(y, field);
      if v.Str? && w.Str? {
        LexIs(v.s, w.s);
      }
      assert OrderKey(x.typ) == Some(field) && x.Get(field) == Some(v) && y.Get(field) == Some(w);
      assert ValueBefore(v, w);
    }
  }
}
