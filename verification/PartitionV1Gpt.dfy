/** Storage version 1 on a GPT disk: when the partitions are laid side by side. */
module PartitionV1Gpt {
  import opened Wrappers
  import opened Alignment
  import opened Sorting
  import opened PartitionV1

  /** No partition of the device is extended. */
  ghost predicate NoneExtended(cfg: seq<Command>, device: string) {
    forall c :: c in cfg && c.partition && c.device == device ==> c.flag != "extended"
  }

  /** One MiB into the disk, behind the sectors of the `j` partitions before. */
  function SideBySide(sizes: seq<nat>, gap: nat, j: nat): Slot
    requires j < |sizes|
  {
    Slot(gap + Sum(sizes[..j]), sizes[j])
  }

  ghost predicate BesideAt(nums: seq<nat>, sizes: seq<nat>, gap: nat, shown: map<nat, Slot>, j: nat)
    requires j < |nums| == |sizes|
  {
    nums[j] in shown && shown[nums[j]] == SideBySide(sizes, gap, j)
  }

  /** `shown` has the first `n` partitions side by side. */
  ghost predicate FirstBeside(nums: seq<nat>, sizes: seq<nat>, gap: nat, shown: map<nat, Slot>, n: nat)
    requires n <= |nums| == |sizes|
  {
    forall j :: 0 <= j < n ==> BesideAt(nums, sizes, gap, shown, j)
  }

  /** The first `n` commands succeed and lay their partitions side by side. */
  ghost predicate LaidOut(cfg: seq<Command>, device: string, block: nat, n: nat)
    requires block > 0 && n <= |cfg| && |Parts(cfg, device, n)| <= |Parts(cfg, device, |cfg|)|
  {
    var shown := Shown(cfg, device, block, false, n);
    shown.Ok? && FirstBeside(Numbers(cfg, device), Sizes(cfg, device, block), ONE_MIB_BYTES / block, shown.value,
                             |Parts(cfg, device, n)|)
  }

  lemma SumSnoc(sizes: seq<nat>, j: nat)
    requires j < |sizes|
    ensures Sum(sizes[..j + 1]) == Sum(sizes[..j]) + sizes[j]
  {
    assert sizes[..j + 1][..j] == sizes[..j];
  }

  lemma {:induction false} SumGrows(sizes: seq<nat>, i: nat, j: nat)
    requires i < j <= |sizes|
    ensures Sum(sizes[..i]) + sizes[i] <= Sum(sizes[..j])
  {
    SumSnoc(sizes, j - 1);
    if i < j - 1 {
      SumGrows(sizes, i, j - 1);
    }
  }

  /** The partition before is simply the one declared before. */
  lemma PreviousOne(cfg: seq<Command>, device: string, j: nat)
    requires NoneExtended(cfg, device) && j < |Parts(cfg, device, |cfg|)|
    ensures var ps := Parts(cfg, device, |cfg|);
      Previous(cfg, device, ps[j]) == if j == 0 then None else Some(ps[j - 1])
  {
    var ps := Parts(cfg, device, |cfg|);
    PreviousIsLastPlain(cfg, device, ps[j]);
    PartsBefore(cfg, device, |cfg|, j);
    if j > 0 {
      assert cfg[ps[j - 1]] in cfg;
    }
  }

  lemma SectorsAre(cfg: seq<Command>, device: string, block: nat, j: nat)
    requires NoneExtended(cfg, device) && block > 0 && j < |Parts(cfg, device, |cfg|)|
    ensures SectorsOf(cfg, Parts(cfg, device, |cfg|)[j], block) == Sizes(cfg, device, block)[j]
  {
    assert cfg[Parts(cfg, device, |cfg|)[j]] in cfg;
  }

  lemma FirstPlaced(cfg: seq<Command>, device: string, block: nat, shown: map<nat, Slot>)
    requires NoneExtended(cfg, device) && block > 0 && Parts(cfg, device, |cfg|) != []
    ensures var slot := SideBySide(Sizes(cfg, device, block), ONE_MIB_BYTES / block, 0);
      Place(cfg, Parts(cfg, device, |cfg|)[0], shown, block, false) == Ok(slot) <==>
        Sizes(cfg, device, block)[0] > 0 && Numbers(cfg, device)[0] == 1
  {
    PreviousOne(cfg, device, 0);
    SectorsAre(cfg, device, block, 0);
  }

  /** A later partition goes behind the one declared before it. */
  lemma LaterPlaced(cfg: seq<Command>, device: string, block: nat, shown: map<nat, Slot>, j: nat)
    requires NoneExtended(cfg, device) && block > 0 && 0 < j < |Parts(cfg, device, |cfg|)|
    requires Numbers(cfg, device)[j] != 1 && Numbers(cfg, device)[j - 1] in shown
    ensures var sizes, prev := Sizes(cfg, device, block), shown[Numbers(cfg, device)[j - 1]];
      var placed := Place(cfg, Parts(cfg, device, |cfg|)[j], shown, block, false);
      if sizes[j] > 0 then placed == Ok(Slot(prev.start + prev.size, sizes[j])) else placed.Err?
  {
    PreviousOne(cfg, device, j);
    SectorsAre(cfg, device, block, j);
  }

  /** Where the `j`-th partition is put, if those before it lie side by side. */
  lemma OnePlaced(cfg: seq<Command>, device: string, block: nat, shown: map<nat, Slot>, j: nat)
    requires NoneExtended(cfg, device) && block > 0 && j < |Parts(cfg, device, |cfg|)|
    requires j > 0 ==> Numbers(cfg, device)[j] != 1
    requires FirstBeside(Numbers(cfg, device), Sizes(cfg, device, block), ONE_MIB_BYTES / block, shown, j)
    ensures var slot := SideBySide(Sizes(cfg, device, block), ONE_MIB_BYTES / block, j);
      Place(cfg, Parts(cfg, device, |cfg|)[j], shown, block, false) == Ok(slot) <==>
        Sizes(cfg, device, block)[j] > 0 && (j == 0 ==> Numbers(cfg, device)[j] == 1)
  {
    if j == 0 {
      FirstPlaced(cfg, device, block, shown);
    } else {
      assert BesideAt(Numbers(cfg, device), Sizes(cfg, device, block), ONE_MIB_BYTES / block, shown, j - 1);
      SumSnoc(Sizes(cfg, device, block), j - 1);
      LaterPlaced(cfg, device, block, shown, j);
    }
  }

  lemma OneMoreBeside(nums: seq<nat>, sizes: seq<nat>, gap: nat, shown: map<nat, Slot>, slot: Slot, n: nat)
    requires n < |nums| == |sizes| && NoDup(nums)
    ensures FirstBeside(nums, sizes, gap, shown[nums[n] := slot], n + 1) <==>
      FirstBeside(nums, sizes, gap, shown, n) && slot == SideBySide(sizes, gap, n)
  {
    var after := shown[nums[n] := slot];
    forall j | 0 <= j < n ensures BesideAt(nums, sizes, gap, after, j) <==> BesideAt(nums, sizes, gap, shown, j) {
    }
    assert BesideAt(nums, sizes, gap, after, n) <==> slot == SideBySide(sizes, gap, n);
  }

  lemma OneMoreShown(cfg: seq<Command>, device: string, block: nat, n: nat)
    requires block > 0 && n < |cfg| && OnDevice(cfg[n], device) && Shown(cfg, device, block, false, n).Ok?
    requires |Parts(cfg, device, n)| < |Parts(cfg, device, |cfg|)|
    ensures var j, shown := |Parts(cfg, device, n)|, Shown(cfg, device, block, false, n).value;
      var placed, after := Place(cfg, n, shown, block, false), Shown(cfg, device, block, false, n + 1);
      && Parts(cfg, device, |cfg|)[j] == n && |Parts(cfg, device, n + 1)| == j + 1
      && after.Ok? == placed.Ok?
      && (placed.Ok? ==> after.value == shown[Numbers(cfg, device)[j] := placed.value])
  {
    PartsAt(cfg, device, |cfg|, n);
  }

  /** Numbers and sizes that do for the first `m` partitions. */
  ghost predicate Does(nums: seq<nat>, sizes: seq<nat>, m: nat)
    requires m <= |nums| == |sizes|
  {
    (m > 0 ==> nums[0] == 1) && forall j :: 0 <= j < m ==> sizes[j] > 0
  }

  lemma OneMoreDoes(nums: seq<nat>, sizes: seq<nat>, m: nat)
    requires m < |nums| == |sizes|
    ensures Does(nums, sizes, m + 1) <==> Does(nums, sizes, m) && sizes[m] > 0 && (m == 0 ==> nums[0] == 1)
  {
  }

  lemma NextLaidOut(cfg: seq<Command>, device: string, block: nat, n: nat)
    requires block > 0 && NoDup(Numbers(cfg, device)) && n < |cfg| && OnDevice(cfg[n], device)
    requires |Parts(cfg, device, n)| < |Parts(cfg, device, |cfg|)|
    ensures LaidOut(cfg, device, block, n + 1) <==>
      && LaidOut(cfg, device, block, n)
      && var shown, j := Shown(cfg, device, block, false, n).value, |Parts(cfg, device, n)|;
        Place(cfg, n, shown, block, false) == Ok(SideBySide(Sizes(cfg, device, block), ONE_MIB_BYTES / block, j))
  {
    if Shown(cfg, device, block, false, n).Ok? {
      var shown := Shown(cfg, device, block, false, n).value;
      OneMoreShown(cfg, device, block, n);
      var placed := Place(cfg, n, shown, block, false);
      if placed.Ok? {
        OneMoreBeside(Numbers(cfg, device), Sizes(cfg, device, block), ONE_MIB_BYTES / block, shown, placed.value,
                      |Parts(cfg, device, n)|);
      }
    }
  }

  lemma OneLaidOut(cfg: seq<Command>, device: string, block: nat, n: nat)
    requires NoneExtended(cfg, device) && block > 0 && NoDup(Numbers(cfg, device))
    requires n < |cfg| && OnDevice(cfg[n], device) && |Parts(cfg, device, n)| < |Parts(cfg, device, |cfg|)|
    requires LaidOut(cfg, device, block, n) <==>
      Does(Numbers(cfg, device), Sizes(cfg, device, block), |Parts(cfg, device, n)|)
    ensures LaidOut(cfg, device, block, n + 1) <==>
      Does(Numbers(cfg, device), Sizes(cfg, device, block), |Parts(cfg, device, n)| + 1)
  {
    var j := |Parts(cfg, device, n)|;
    NextLaidOut(cfg, device, block, n);
    OneMoreDoes(Numbers(cfg, device), Sizes(cfg, device, block), j);
    if LaidOut(cfg, device, block, n) {
      PartsAt(cfg, device, |cfg|, n);
      OnePlaced(cfg, device, block, Shown(cfg, device, block, false, n).value, j);
    }
  }

  lemma {:induction false} AllLaidOut(cfg: seq<Command>, device: string, block: nat, n: nat)
    requires NoneExtended(cfg, device) && block > 0 && NoDup(Numbers(cfg, device)) && n <= |cfg|
    ensures |Parts(cfg, device, n)| <= |Parts(cfg, device, |cfg|)|
    ensures LaidOut(cfg, device, block, n) <==>
      Does(Numbers(cfg, device), Sizes(cfg, device, block), |Parts(cfg, device, n)|)
  {
    PartsPrefix(cfg, device, n, |cfg|);
    if n > 0 {
      AllLaidOut(cfg, device, block, n - 1);
      if OnDevice(cfg[n - 1], device) {
        PartsAt(cfg, device, |cfg|, n - 1);
        OneLaidOut(cfg, device, block, n - 1);
      }
    }
  }

  lemma {:induction false} PlacedHaveSectors(cfg: seq<Command>, device: string, block: nat, n: nat, j: nat)
    requires NoneExtended(cfg, device) && block > 0 && n <= |cfg| && Shown(cfg, device, block, false, n).Ok?
    requires j < |Parts(cfg, device, n)| <= |Parts(cfg, device, |cfg|)|
    ensures Sizes(cfg, device, block)[j] > 0
  {
    PartsPrefix(cfg, device, n - 1, |cfg|);
    if j < |Parts(cfg, device, n - 1)| {
      PlacedHaveSectors(cfg, device, block, n - 1, j);
    } else {
      PartsAt(cfg, device, |cfg|, n - 1);
      assert cfg[n - 1] in cfg;
    }
  }

  /** On a GPT disk without an extended partition: every partition is placed, side by side from one MiB on,
      exactly when the numbers differ, the first is 1, and every size is worth a sector. */
  lemma LaidOutExactly(cfg: seq<Command>, device: string, block: nat)
    requires NoneExtended(cfg, device) && block > 0
    ensures var nums, sizes := Numbers(cfg, device), Sizes(cfg, device, block);
      LaidOut(cfg, device, block, |cfg|) <==>
        && NoDup(nums) && (nums != [] ==> nums[0] == 1) && forall j :: 0 <= j < |sizes| ==> sizes[j] > 0
  {
    var nums, sizes, gap := Numbers(cfg, device), Sizes(cfg, device, block), ONE_MIB_BYTES / block;
    if LaidOut(cfg, device, block, |cfg|) {
      forall j | 0 <= j < |sizes| ensures sizes[j] > 0 {
        PlacedHaveSectors(cfg, device, block, |cfg|, j);
      }
      forall i, j | 0 <= i < j < |nums| ensures nums[i] != nums[j] {
        var shown := Shown(cfg, device, block, false, |cfg|).value;
        assert BesideAt(nums, sizes, gap, shown, i) && BesideAt(nums, sizes, gap, shown, j);
        SumGrows(sizes, i, j);
      }
    }
    if NoDup(nums) {
      AllLaidOut(cfg, device, block, |cfg|);
    }
  }

  /** Then the `j`-th partition starts behind one MiB and the sectors of those before it, and none overlap. */
  lemma GptSideBySide(cfg: seq<Command>, device: string, block: nat)
    requires NoneExtended(cfg, device) && block > 0 && NoDup(Numbers(cfg, device))
    requires Numbers(cfg, device) != [] ==> Numbers(cfg, device)[0] == 1
    requires forall j :: 0 <= j < |Sizes(cfg, device, block)| ==> Sizes(cfg, device, block)[j] > 0
    ensures Shown(cfg, device, block, false, |cfg|).Ok?
    ensures var shown, nums := Shown(cfg, device, block, false, |cfg|).value, Numbers(cfg, device);
      var sizes := Sizes(cfg, device, block);
      && (forall j :: 0 <= j < |nums| ==>
            nums[j] in shown && shown[nums[j]] == Slot(ONE_MIB_BYTES / block + Sum(sizes[..j]), sizes[j]))
      && (forall i, j :: 0 <= i < j < |nums| ==> Ahead(shown, nums[i], nums[j], 0))
  {
    LaidOutExactly(cfg, device, block);
    var shown := Shown(cfg, device, block, false, |cfg|).value;
    var nums, sizes, gap := Numbers(cfg, device), Sizes(cfg, device, block), ONE_MIB_BYTES / block;
    forall j | 0 <= j < |nums|
      ensures nums[j] in shown && shown[nums[j]] == Slot(gap + Sum(sizes[..j]), sizes[j])
    {
      assert BesideAt(nums, sizes, gap, shown, j);
    }
    forall i, j | 0 <= i < j < |nums| ensures Ahead(shown, nums[i], nums[j], 0) {
      assert BesideAt(nums, sizes, gap, shown, i) && BesideAt(nums, sizes, gap, shown, j);
      SumGrows(sizes, i, j);
    }
  }

  lemma {:induction false} CountsParts(cfg: seq<Command>, device: string, n: nat)
    requires n <= |cfg|
    ensures CountParts(cfg, device, false, n) == |Parts(cfg, device, n)|
  {
    if n > 0 {
      CountsParts(cfg, device, n - 1);
    }
  }

  /** Counted numbers always do where no partition is logical. */
  lemma CountedNumbersDiffer(cfg: seq<Command>, device: string)
    requires forall c :: c in cfg && c.partition && c.device == device ==> c.number == 0 && c.flag != "logical"
    ensures forall j :: 0 <= j < |Numbers(cfg, device)| ==> Numbers(cfg, device)[j] == j + 1
  {
    forall j | 0 <= j < |Numbers(cfg, device)| ensures Numbers(cfg, device)[j] == j + 1 {
      var i := Parts(cfg, device, |cfg|)[j];
      assert cfg[i] in cfg;
      PartsBefore(cfg, device, |cfg|, j);
      CountsParts(cfg, device, i);
    }
  }
}
