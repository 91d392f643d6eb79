/** Storage version 1: partitions are placed one action at a time, each after the one the kernel shows before it. */
module PartitionV1 {
  import opened Wrappers
  import opened Alignment
  import opened Sorting

  /** A command of the storage configuration; `size` is in bytes. A missing number is 0. */
  datatype Command = Command(id: string, partition: bool, device: string, flag: string, number: nat, size: nat)

  datatype Slot = Slot(start: nat, size: nat)

  datatype Error = NoExtended | NoPrevious | NotShown(number: nat) | NoSize

  // ----- Looking through the configuration -----

  predicate OnDevice(c: Command, device: string) { c.partition && c.device == device }

  /** The partitions of the device among the first `n` commands, logical ones only if asked for. */
  function CountParts(cfg: seq<Command>, device: string, logical: bool, n: nat): nat
    requires n <= |cfg|
  {
    if n == 0 then 0
    else
      CountParts(cfg, device, logical, n - 1)
      + (if OnDevice(cfg[n - 1], device) && (logical ==> cfg[n - 1].flag == "logical") then 1 else 0)
  }

  function PartitionNumber(cfg: seq<Command>, i: nat): nat
    requires i < |cfg|
  {
    if cfg[i].number > 0 then cfg[i].number
    else if cfg[i].flag == "logical" then 5 + CountParts(cfg, cfg[i].device, true, i)
    else 1 + CountParts(cfg, cfg[i].device, false, i)
  }

  ghost predicate UniqueIds(cfg: seq<Command>) {
    forall i, j :: 0 <= i < j < |cfg| ==> cfg[i].id != cfg[j].id
  }

  method DetermineNumber(cfg: seq<Command>, i: nat) returns (number: nat)
    requires i < |cfg| && cfg[i].partition && UniqueIds(cfg)
    ensures number == PartitionNumber(cfg, i)
  {
    var vol := cfg[i];
    number := vol.number;
    if number > 0 {
      return;
    }
    var logical := vol.flag == "logical";
    number := if logical then 5 else 1;
    var j := 0;
    while j < |cfg|
      invariant j <= i
      invariant number == (if logical then 5 else 1) + CountParts(cfg, vol.device, logical, j)
    {
      if OnDevice(cfg[j], vol.device) && (logical ==> cfg[j].flag == "logical") {
        if cfg[j].id == vol.id {
          break;
        }
        number := number + 1;
      }
      j := j + 1;
    }
  }

  /** The last partition of the device before command `i` that is not the extended one. */
  function Previous(cfg: seq<Command>, device: string, i: nat): (p: Option<nat>)
    requires i <= |cfg|
    ensures p.Some? ==> p.value < i && OnDevice(cfg[p.value], device) && cfg[p.value].flag != "extended"
  {
    if i == 0 then None
    else if OnDevice(cfg[i - 1], device) && cfg[i - 1].flag != "extended" then Some(i - 1)
    else Previous(cfg, device, i - 1)
  }

  method FindPrevious(cfg: seq<Command>, i: nat) returns (number: Option<nat>)
    requires i < |cfg| && UniqueIds(cfg)
    ensures var p := Previous(cfg, cfg[i].device, i);
      number == if p.Some? then Some(PartitionNumber(cfg, p.value)) else None
  {
    number := None;
    var j := 0;
    while cfg[j].id != cfg[i].id
      invariant j <= i
      invariant var p := Previous(cfg, cfg[i].device, j);
        number == if p.Some? then Some(PartitionNumber(cfg, p.value)) else None
      decreases i - j
    {
      if OnDevice(cfg[j], cfg[i].device) && cfg[j].flag != "extended" {
        var n := DetermineNumber(cfg, j);
        number := Some(n);
      }
      j := j + 1;
    }
  }

  /** The first extended partition of the device from command `from` on. */
  function Extended(cfg: seq<Command>, device: string, from: nat): (e: Option<nat>)
    requires from <= |cfg|
    ensures e.Some? ==> from <= e.value < |cfg| && OnDevice(cfg[e.value], device) && cfg[e.value].flag == "extended"
    decreases |cfg| - from
  {
    if from == |cfg| then None
    else if OnDevice(cfg[from], device) && cfg[from].flag == "extended" then Some(from)
    else Extended(cfg, device, from + 1)
  }

  function CountLogical(cfg: seq<Command>, device: string, n: nat): nat
    requires n <= |cfg|
  {
    if n == 0 then 0
    else
      CountLogical(cfg, device, n - 1)
      + (if cfg[n - 1].device == device && cfg[n - 1].flag == "logical" then 1 else 0)
  }

  method NumberOfLogicals(device: string, cfg: seq<Command>) returns (n: nat)
    ensures n == CountLogical(cfg, device, |cfg|)
  {
    n := 0;
    for j := 0 to |cfg|
      invariant n == CountLogical(cfg, device, j)
    {
      if cfg[j].device == device && cfg[j].flag == "logical" {
        n := n + 1;
      }
    }
  }

  // ----- Placing one partition -----

  /** The partition whose place the new one is counted from. */
  function Anchor(cfg: seq<Command>, i: nat, msdos: bool): Result<nat, Error>
    requires i < |cfg|
  {
    if PartitionNumber(cfg, i) == 5 && msdos then
      (match Extended(cfg, cfg[i].device, 0) case None => Err(NoExtended) case Some(e) => Ok(PartitionNumber(cfg, e)))
    else
      (match Previous(cfg, cfg[i].device, i) case None => Err(NoPrevious) case Some(p) => Ok(PartitionNumber(cfg, p)))
  }

  function OffsetAfter(c: Command, number: nat, prev: Slot, gap: nat, msdos: bool): nat {
    if !msdos || c.flag != "logical" then prev.start + prev.size
    else if number == 5 then prev.start + gap
    else prev.start + prev.size + gap
  }

  /** `n` gaps of the same size. */
  function Gaps(n: nat, gap: nat): nat { if n == 0 then 0 else Gaps(n - 1, gap) + gap }

  lemma {:induction false} GapsProduct(n: nat, gap: nat)
    ensures Gaps(n, gap) == n * gap
  {
    if n > 0 {
      GapsProduct(n - 1, gap);
      assert n * gap == (n - 1) * gap + gap;
    }
  }

  /** The sectors the partition of command `i` takes: its size, and for the extended one a gap for each logical. */
  function SectorsOf(cfg: seq<Command>, i: nat, block: nat): nat
    requires i < |cfg| && block > 0
  {
    var c := cfg[i];
    c.size / block + if c.flag == "extended" then Gaps(CountLogical(cfg, c.device, |cfg|), ONE_MIB_BYTES / block) else 0
  }

  /** Where command `i` puts its partition; `block` is the logical block size, `shown` what the kernel shows so far.
      The partition runs from its start over all its sectors. */
  function Place(cfg: seq<Command>, i: nat, shown: map<nat, Slot>, block: nat, msdos: bool): Result<Slot, Error>
    requires i < |cfg| && block > 0
  {
    var c, number, gap, sectors := cfg[i], PartitionNumber(cfg, i), ONE_MIB_BYTES / block, SectorsOf(cfg, i, block);
    if c.size == 0 || sectors == 0 then Err(NoSize)
    else if number <= 1 then Ok(Slot(gap, sectors))
    else
      match Anchor(cfg, i, msdos)
      case Err(e) => Err(e)
      case Ok(pnum) =>
        if pnum !in shown then Err(NotShown(pnum))
        else Ok(Slot(OffsetAfter(c, number, shown[pnum], gap, msdos), sectors))
  }

  method PartitionHandler(cfg: seq<Command>, i: nat, shown: map<nat, Slot>, block: nat, msdos: bool)
    returns (r: Result<Slot, Error>, number: nat)
    requires i < |cfg| && cfg[i].partition && UniqueIds(cfg) && block > 0
    ensures r == Place(cfg, i, shown, block, msdos) && number == PartitionNumber(cfg, i)
  {
    var c := cfg[i];
    number := DetermineNumber(cfg, i);
    var gap := ONE_MIB_BYTES / block;
    var length := c.size / block - 1;
    if c.flag == "extended" {
      var logicals := NumberOfLogicals(c.device, cfg);
      GapsProduct(logicals, gap);
      length := length + logicals * gap;
    }
    if c.size == 0 || length < 0 {
      return Err(NoSize), number;
    }
    var start := gap;
    if number > 1 {
      var pnum;
      if number == 5 && msdos {
        var e := Extended(cfg, c.device, 0);
        if e.None? {
          return Err(NoExtended), number;
        }
        pnum := DetermineNumber(cfg, e.value);
      } else {
        var p := FindPrevious(cfg, i);
        if p.None? {
          return Err(NoPrevious), number;
        }
        pnum := p.value;
      }
      if pnum !in shown {
        return Err(NotShown(pnum)), number;
      }
      start := OffsetAfter(c, number, shown[pnum], gap, msdos);
    }
    r := Ok(Slot(start, length + 1));
  }

  /** What the kernel shows after the first `n` partition commands of the device, each placed in turn. */
  function Shown(cfg: seq<Command>, device: string, block: nat, msdos: bool, n: nat): Result<map<nat, Slot>, Error>
    requires n <= |cfg| && block > 0
  {
    if n == 0 then Ok(map[])
    else
      match Shown(cfg, device, block, msdos, n - 1)
      case Err(e) => Err(e)
      case Ok(shown) =>
        if !OnDevice(cfg[n - 1], device) then Ok(shown)
        else
          match Place(cfg, n - 1, shown, block, msdos)
          case Err(e) => Err(e)
          case Ok(slot) => Ok(shown[PartitionNumber(cfg, n - 1) := slot])
  }

  lemma {:induction false} ErrorStays(cfg: seq<Command>, device: string, block: nat, msdos: bool, m: nat, n: nat)
    requires m <= n <= |cfg| && block > 0 && Shown(cfg, device, block, msdos, m).Err?
    ensures Shown(cfg, device, block, msdos, n) == Shown(cfg, device, block, msdos, m)
  {
    if m < n {
      ErrorStays(cfg, device, block, msdos, m, n - 1);
    }
  }

  method PlaceAll(cfg: seq<Command>, device: string, block: nat, msdos: bool) returns (r: Result<map<nat, Slot>, Error>)
    requires UniqueIds(cfg) && block > 0
    ensures r == Shown(cfg, device, block, msdos, |cfg|)
  {
    var shown: map<nat, Slot> := map[];
    for i := 0 to |cfg|
      invariant Shown(cfg, device, block, msdos, i) == Ok(shown)
    {
      if OnDevice(cfg[i], device) {
        var placed, number := PartitionHandler(cfg, i, shown, block, msdos);
        if placed.Err? {
          ErrorStays(cfg, device, block, msdos, i + 1, |cfg|);
          return Err(placed.error);
        }
        shown := shown[number := placed.value];
      }
    }
    r := Ok(shown);
  }

  // ----- The partitions of one device -----

  /** Where the device's partitions stand among the first `n` commands. */
  function Parts(cfg: seq<Command>, device: string, n: nat): (ps: seq<nat>)
    requires n <= |cfg|
    ensures |ps| <= n && forall j :: 0 <= j < |ps| ==> ps[j] < n && OnDevice(cfg[ps[j]], device)
  {
    if n == 0 then []
    else Parts(cfg, device, n - 1) + (if OnDevice(cfg[n - 1], device) then [n - 1] else [])
  }

  /** A partition's place in that list is the number of partitions before it. */
  lemma {:induction false} PartsAt(cfg: seq<Command>, device: string, n: nat, i: nat)
    requires i < n <= |cfg| && OnDevice(cfg[i], device)
    ensures |Parts(cfg, device, i)| < |Parts(cfg, device, n)|
    ensures Parts(cfg, device, n)[|Parts(cfg, device, i)|] == i
  {
    if i < n - 1 {
      PartsAt(cfg, device, n - 1, i);
    }
  }

  lemma {:induction false} PartsPrefix(cfg: seq<Command>, device: string, m: nat, n: nat)
    requires m <= n <= |cfg|
    ensures |Parts(cfg, device, m)| <= |Parts(cfg, device, n)|
    ensures Parts(cfg, device, n)[..|Parts(cfg, device, m)|] == Parts(cfg, device, m)
  {
    if m < n {
      PartsPrefix(cfg, device, m, n - 1);
    }
  }

  /** The partitions before the `j`-th one are the first `j`. */
  lemma {:induction false} PartsBefore(cfg: seq<Command>, device: string, n: nat, j: nat)
    requires n <= |cfg| && j < |Parts(cfg, device, n)|
    ensures Parts(cfg, device, Parts(cfg, device, n)[j]) == Parts(cfg, device, n)[..j]
  {
    if j < |Parts(cfg, device, n - 1)| {
      PartsBefore(cfg, device, n - 1, j);
    }
  }

  /** The last of the listed partitions that is not extended. */
  function LastPlain(cfg: seq<Command>, ps: seq<nat>): Option<nat>
    requires forall j :: 0 <= j < |ps| ==> ps[j] < |cfg|
  {
    if ps == [] then None
    else if cfg[ps[|ps| - 1]].flag != "extended" then Some(ps[|ps| - 1])
    else LastPlain(cfg, ps[..|ps| - 1])
  }

  lemma {:induction false} PreviousIsLastPlain(cfg: seq<Command>, device: string, n: nat)
    requires n <= |cfg|
    ensures Previous(cfg, device, n) == LastPlain(cfg, Parts(cfg, device, n))
  {
    if n > 0 {
      PreviousIsLastPlain(cfg, device, n - 1);
      var ps := Parts(cfg, device, n - 1);
      if OnDevice(cfg[n - 1], device) {
        assert Parts(cfg, device, n) == ps + [n - 1];
        assert (ps + [n - 1])[..|ps|] == ps;
      } else {
        assert Parts(cfg, device, n) == ps;
      }
    }
  }

  // ----- An msdos disk: primaries, one extended partition, then logicals -----

  /** Among all the commands, those of the device are `k` primaries, the extended partition, then logicals. */
  ghost predicate Declared(cfg: seq<Command>, device: string, k: nat) {
    var ps := Parts(cfg, device, |cfg|);
    && k < |ps|
    && (forall j :: 0 <= j < k ==> cfg[ps[j]].flag != "extended" && cfg[ps[j]].flag != "logical")
    && cfg[ps[k]].flag == "extended"
    && (forall j :: k < j < |ps| ==> cfg[ps[j]].flag == "logical")
  }

  /** The numbers of the device's partitions, given or counted. */
  function Numbers(cfg: seq<Command>, device: string): (nums: seq<nat>)
    ensures |nums| == |Parts(cfg, device, |cfg|)|
    ensures forall j :: 0 <= j < |nums| ==> nums[j] == PartitionNumber(cfg, Parts(cfg, device, |cfg|)[j]) >= 1
  {
    var ps := Parts(cfg, device, |cfg|);
    seq(|ps|, j requires 0 <= j < |ps| => PartitionNumber(cfg, ps[j]))
  }

  /** What numbers allow of the `j`-th partition: the first one has number 1, and 5 is kept for the first logical one,
      which must have it where no primary comes before the extended partition. */
  predicate NumberAllowed(nums: seq<nat>, k: nat, j: nat)
    requires j < |nums|
  {
    && (j == 0 ==> nums[j] == 1)
    && (j != k + 1 ==> nums[j] != 5)
    && (j == 1 && k == 0 ==> nums[j] == 5)
  }

  ghost predicate WellNumbered(nums: seq<nat>, k: nat) {
    NoDup(nums) && forall j :: 0 <= j < |nums| ==> NumberAllowed(nums, k, j)
  }

  /** The only extended partition is found. */
  lemma {:induction false} ExtendedIs(cfg: seq<Command>, device: string, k: nat, from: nat)
    requires Declared(cfg, device, k) && from <= Parts(cfg, device, |cfg|)[k]
    ensures Extended(cfg, device, from) == Some(Parts(cfg, device, |cfg|)[k])
    decreases |cfg| - from
  {
    var ps := Parts(cfg, device, |cfg|);
    if from < ps[k] {
      if OnDevice(cfg[from], device) {
        PartsAt(cfg, device, |cfg|, from);
        assert ps[|Parts(cfg, device, from)|] == from;
      }
      ExtendedIs(cfg, device, k, from + 1);
    }
  }

  lemma PlainBefore(cfg: seq<Command>, device: string, k: nat, j: nat)
    requires Declared(cfg, device, k) && j <= |Parts(cfg, device, |cfg|)|
    ensures var ps := Parts(cfg, device, |cfg|);
      LastPlain(cfg, ps[..j]) ==
        if j == 0 || (j == 1 && k == 0) then None else Some(ps[if j == k + 1 then k - 1 else j - 1])
  {
    var before := Parts(cfg, device, |cfg|)[..j];
    if j == k + 1 {
      assert before[..k] == Parts(cfg, device, |cfg|)[..k];
      PlainBefore(cfg, device, k, k);
    }
  }

  lemma PreviousAt(cfg: seq<Command>, device: string, k: nat, j: nat)
    requires Declared(cfg, device, k) && j < |Parts(cfg, device, |cfg|)|
    ensures var ps := Parts(cfg, device, |cfg|);
      Previous(cfg, device, ps[j]) ==
        if j == 0 || (j == 1 && k == 0) then None else Some(ps[if j == k + 1 then k - 1 else j - 1])
  {
    PreviousIsLastPlain(cfg, device, Parts(cfg, device, |cfg|)[j]);
    PartsBefore(cfg, device, |cfg|, j);
    PlainBefore(cfg, device, k, j);
  }

  /** The number partition `j` counts its place from: the extended partition's if its own is 5, otherwise
      that of the last partition before it that is not extended. */
  lemma Anchors(cfg: seq<Command>, device: string, k: nat, j: nat)
    requires Declared(cfg, device, k) && j < |Numbers(cfg, device)|
    ensures var nums := Numbers(cfg, device);
      Anchor(cfg, Parts(cfg, device, |cfg|)[j], true) ==
        if nums[j] == 5 then Ok(nums[k])
        else if j == 0 || (j == 1 && k == 0) then Err(NoPrevious)
        else Ok(nums[if j == k + 1 then k - 1 else j - 1])
  {
    ExtendedIs(cfg, device, k, 0);
    PreviousAt(cfg, device, k, j);
  }

  // ----- The layout in sectors: `sizes` as asked for, `gap` one MiB -----

  /** The sectors of the partitions before `j`, counted from the first one of its kind; each logical takes
      a gap as well. */
  function Taken(sizes: seq<nat>, k: nat, gap: nat, j: nat): nat
    requires j <= |sizes|
    decreases j
  {
    if j == 0 || j == k + 1 then 0
    else Taken(sizes, k, gap, j - 1) + sizes[j - 1] + (if j > k + 1 then gap else 0)
  }

  /** Where partition `j` ends up, if the extended partition is made `growth` sectors larger than asked for. */
  function SlotOf(sizes: seq<nat>, k: nat, gap: nat, growth: nat, j: nat): Slot
    requires k < |sizes| && j < |sizes|
  {
    if j < k then Slot(gap + Taken(sizes, k, gap, j), sizes[j])
    else if j == k then Slot(gap + Taken(sizes, k, gap, k), sizes[k] + growth)
    else Slot(gap + Taken(sizes, k, gap, k) + gap + Taken(sizes, k, gap, j), sizes[j])
  }

  function Sum(xs: seq<nat>): nat { if xs == [] then 0 else Sum(xs[..|xs| - 1]) + xs[|xs| - 1] }

  lemma {:induction false} TakenByLogicals(sizes: seq<nat>, k: nat, gap: nat, j: nat)
    requires k < j <= |sizes|
    ensures Taken(sizes, k, gap, j) == Sum(sizes[k + 1..j]) + Gaps(j - k - 1, gap)
  {
    if j > k + 1 {
      TakenByLogicals(sizes, k, gap, j - 1);
      var part := sizes[k + 1..j];
      assert part[..|part| - 1] == sizes[k + 1..j - 1];
    }
  }

  lemma {:induction false} TakenGrows(sizes: seq<nat>, k: nat, gap: nat, i: nat, j: nat)
    requires i < j <= |sizes| && (j <= k || k < i)
    ensures Taken(sizes, k, gap, i) + sizes[i] + (if k < i then gap else 0) <= Taken(sizes, k, gap, j)
    decreases j
  {
    if i < j - 1 {
      TakenGrows(sizes, k, gap, i, j - 1);
    }
  }

  ghost predicate Inside(inner: Slot, outer: Slot) {
    outer.start <= inner.start && inner.start + inner.size <= outer.start + outer.size
  }

  ghost predicate LogicalsFit(sizes: seq<nat>, k: nat, gap: nat, growth: nat)
    requires k < |sizes|
  {
    forall j :: k < j < |sizes| ==> Inside(SlotOf(sizes, k, gap, growth, j), SlotOf(sizes, k, gap, growth, k))
  }

  /** With the extended partition grown by `growth`, the logicals all fit exactly when their sectors and one
      gap each do. */
  lemma FitExactly(sizes: seq<nat>, k: nat, gap: nat, growth: nat)
    requires k < |sizes|
    ensures LogicalsFit(sizes, k, gap, growth) <==>
      (|sizes| == k + 1 || Sum(sizes[k + 1..]) + Gaps(|sizes| - k - 1, gap) <= sizes[k] + growth)
  {
    var n := |sizes|;
    TakenByLogicals(sizes, k, gap, n);
    assert sizes[k + 1..n] == sizes[k + 1..];
    if n > k + 1 {
      assert LogicalsFit(sizes, k, gap, growth) ==>
        Inside(SlotOf(sizes, k, gap, growth, n - 1), SlotOf(sizes, k, gap, growth, k));
      if Taken(sizes, k, gap, n) <= sizes[k] + growth {
        forall j | k < j < n ensures Inside(SlotOf(sizes, k, gap, growth, j), SlotOf(sizes, k, gap, growth, k)) {
          TakenGrows(sizes, k, gap, j, n);
        }
      }
    }
  }

  /** The least growth that serves every choice of logicals no larger in total than the size asked for
      is one gap per logical. */
  lemma GrowthIsTight(k: nat, n: nat, gap: nat, growth: nat)
    requires n > 0
    ensures n * gap <= growth <==>
      forall sizes: seq<nat> :: |sizes| == k + 1 + n && Sum(sizes[k + 1..]) <= sizes[k] ==>
        LogicalsFit(sizes, k, gap, growth)
  {
    GapsProduct(n, gap);
    if n * gap <= growth {
      forall sizes: seq<nat> | |sizes| == k + 1 + n && Sum(sizes[k + 1..]) <= sizes[k]
        ensures LogicalsFit(sizes, k, gap, growth)
      {
        FitExactly(sizes, k, gap, growth);
      }
    } else {
      var logicals := seq(n, _ => 1);
      var sizes: seq<nat> := seq(k, _ => 1) + [Sum(logicals)] + logicals;
      assert sizes[k + 1..] == logicals;
      FitExactly(sizes, k, gap, growth);
    }
  }

  // ----- What the handler does on such a disk -----

  function Sizes(cfg: seq<Command>, device: string, block: nat): (sizes: seq<nat>)
    requires block > 0
    ensures |sizes| == |Parts(cfg, device, |cfg|)|
    ensures forall j :: 0 <= j < |sizes| ==> sizes[j] == cfg[Parts(cfg, device, |cfg|)[j]].size / block
  {
    var ps := Parts(cfg, device, |cfg|);
    seq(|ps|, j requires 0 <= j < |ps| => cfg[ps[j]].size / block)
  }

  /** What the extended partition is made larger by: a gap for each item of the device with the logical flag. */
  function Growth(cfg: seq<Command>, device: string, gap: nat): nat { Gaps(CountLogical(cfg, device, |cfg|), gap) }

  /** The `j`-th partition asks for at least a sector; the extended one may owe its only sectors to the gaps. */
  predicate Sized(cfg: seq<Command>, device: string, block: nat, k: nat, j: nat)
    requires block > 0 && j < |Parts(cfg, device, |cfg|)|
  {
    var size := cfg[Parts(cfg, device, |cfg|)[j]].size;
    size > 0 && (size / block > 0 || (j == k && Growth(cfg, device, ONE_MIB_BYTES / block) > 0))
  }

  /** The numbers of the partitions and what their places are counted from. */
  datatype Layout = Layout(nums: seq<nat>, sizes: seq<nat>, k: nat, gap: nat, growth: nat) {
    ghost predicate Valid() { k < |sizes| == |nums| }

    function Slot(j: nat): Slot
      requires k < |sizes| && j < |sizes|
    {
      SlotOf(sizes, k, gap, growth, j)
    }
  }

  function LayoutOf(cfg: seq<Command>, device: string, k: nat, block: nat): (l: Layout)
    requires block > 0
    ensures |l.sizes| == |l.nums| == |Parts(cfg, device, |cfg|)| && l.k == k
  {
    var gap := ONE_MIB_BYTES / block;
    Layout(Numbers(cfg, device), Sizes(cfg, device, block), k, gap, Growth(cfg, device, gap))
  }

  ghost predicate PlannedAt(l: Layout, shown: map<nat, Slot>, j: nat)
    requires l.Valid() && j < |l.nums|
  {
    l.nums[j] in shown && shown[l.nums[j]] == l.Slot(j)
  }

  /** `shown` has the first `n` partitions where they are planned. */
  ghost predicate FirstPlanned(l: Layout, shown: map<nat, Slot>, n: nat)
    requires l.Valid() && n <= |l.nums|
  {
    forall j :: 0 <= j < n ==> PlannedAt(l, shown, j)
  }

  /** `shown` has no numbers but those of the first `n` partitions. */
  ghost predicate OnlyFirst(l: Layout, shown: map<nat, Slot>, n: nat)
    requires n <= |l.nums|
  {
    forall key :: key in shown ==> key in l.nums[..n]
  }

  /** No two partitions are planned in the same place. */
  lemma SlotsDiffer(l: Layout, cfg: seq<Command>, device: string, block: nat, i: nat, j: nat)
    requires block > 0 && l == LayoutOf(cfg, device, l.k, block) && l.Valid() && l.gap > 0 && i < j < |l.nums|
    requires Sized(cfg, device, block, l.k, i) && Sized(cfg, device, block, l.k, j)
    ensures l.Slot(i).start < l.Slot(j).start
  {
    if j <= l.k || l.k < i {
      TakenGrows(l.sizes, l.k, l.gap, i, j);
    } else if i < l.k {
      TakenGrows(l.sizes, l.k, l.gap, i, l.k);
    }
  }

  lemma SectorsPlanned(cfg: seq<Command>, device: string, k: nat, block: nat, j: nat)
    requires Declared(cfg, device, k) && block > 0 && j < |Parts(cfg, device, |cfg|)|
    ensures var l := LayoutOf(cfg, device, k, block);
      SectorsOf(cfg, Parts(cfg, device, |cfg|)[j], block) == l.Slot(j).size
    ensures Sized(cfg, device, block, k, j) <==>
      cfg[Parts(cfg, device, |cfg|)[j]].size > 0 && SectorsOf(cfg, Parts(cfg, device, |cfg|)[j], block) > 0
  {
  }

  /** With different numbers, only the partitions before it are shown when partition `j` is placed. */
  lemma ShownBefore(l: Layout, shown: map<nat, Slot>, i: nat, j: nat)
    requires l.Valid() && NoDup(l.nums) && i < |l.nums| && j <= |l.nums|
    requires FirstPlanned(l, shown, j) && OnlyFirst(l, shown, j)
    ensures l.nums[i] in shown <==> i < j
    ensures i < j ==> shown[l.nums[i]] == l.Slot(i)
  {
    if i < j {
      assert PlannedAt(l, shown, i);
    }
  }

  lemma FromExtended(l: Layout, j: nat)
    requires l.Valid() && l.gap > 0 && l.k < j < |l.nums|
    ensures l.Slot(l.k).start + l.gap == l.Slot(j).start <==> j == l.k + 1
  {
    if j > l.k + 1 {
      TakenGrows(l.sizes, l.k, l.gap, l.k + 1, j);
    }
  }

  lemma FromPrevious(l: Layout, j: nat)
    requires l.Valid() && 0 < j < |l.nums| && (j == 1 ==> l.k > 0)
    ensures var prev := l.Slot(if j == l.k + 1 then l.k - 1 else j - 1);
      l.Slot(j).start == prev.start + prev.size + if j <= l.k then 0 else l.gap
  {
  }

  /** What is left to decide once the sectors are known. */
  lemma PlaceFrom(cfg: seq<Command>, device: string, k: nat, block: nat, l: Layout, shown: map<nat, Slot>, j: nat)
    requires Declared(cfg, device, k) && block > 0 && l == LayoutOf(cfg, device, k, block) && j < |l.nums|
    ensures var i := Parts(cfg, device, |cfg|)[j]; var placed := Place(cfg, i, shown, block, true);
      placed == Ok(l.Slot(j)) <==>
        && Sized(cfg, device, block, k, j)
        && (l.nums[j] == 1 ==> l.Slot(j).start == l.gap)
        && (l.nums[j] != 1 ==>
            var anchor := Anchor(cfg, i, true);
            && anchor.Ok? && anchor.value in shown
            && OffsetAfter(cfg[i], l.nums[j], shown[anchor.value], l.gap, true) == l.Slot(j).start)
  {
    SectorsPlanned(cfg, device, k, block, j);
  }

  lemma FirstPlaced(cfg: seq<Command>, device: string, k: nat, block: nat, l: Layout, shown: map<nat, Slot>)
    requires Declared(cfg, device, k) && block > 0 && l == LayoutOf(cfg, device, k, block)
    requires OnlyFirst(l, shown, 0)
    ensures Place(cfg, Parts(cfg, device, |cfg|)[0], shown, block, true) == Ok(l.Slot(0)) <==>
      NumberAllowed(l.nums, k, 0) && Sized(cfg, device, block, k, 0)
  {
    PlaceFrom(cfg, device, k, block, l, shown, 0);
    Anchors(cfg, device, k, 0);
  }

  lemma FifthPlaced(cfg: seq<Command>, device: string, k: nat, block: nat, l: Layout, shown: map<nat, Slot>, j: nat)
    requires Declared(cfg, device, k) && block > 0 && l == LayoutOf(cfg, device, k, block) && l.gap > 0
    requires 0 < j < |l.nums| && NoDup(l.nums) && FirstPlanned(l, shown, j) && OnlyFirst(l, shown, j)
    requires l.nums[j] == 5
    ensures Place(cfg, Parts(cfg, device, |cfg|)[j], shown, block, true) == Ok(l.Slot(j)) <==>
      NumberAllowed(l.nums, k, j) && Sized(cfg, device, block, k, j)
  {
    PlaceFrom(cfg, device, k, block, l, shown, j);
    Anchors(cfg, device, k, j);
    ShownBefore(l, shown, k, j);
    if k < j {
      FromExtended(l, j);
    }
  }

  lemma LaterPlaced(cfg: seq<Command>, device: string, k: nat, block: nat, l: Layout, shown: map<nat, Slot>, j: nat)
    requires Declared(cfg, device, k) && block > 0 && l == LayoutOf(cfg, device, k, block)
    requires 0 < j < |l.nums| && NoDup(l.nums) && FirstPlanned(l, shown, j) && OnlyFirst(l, shown, j)
    requires l.nums[j] != 5 && l.nums[j] != 1
    ensures Place(cfg, Parts(cfg, device, |cfg|)[j], shown, block, true) == Ok(l.Slot(j)) <==>
      NumberAllowed(l.nums, k, j) && Sized(cfg, device, block, k, j)
  {
    PlaceFrom(cfg, device, k, block, l, shown, j);
    Anchors(cfg, device, k, j);
    if j != 1 || k > 0 {
      ShownBefore(l, shown, if j == k + 1 then k - 1 else j - 1, j);
      FromPrevious(l, j);
    }
  }

  /** A partition goes where it is planned exactly when its number and size allow it. */
  lemma PlacedExactly(cfg: seq<Command>, device: string, k: nat, block: nat, l: Layout, shown: map<nat, Slot>, j: nat)
    requires Declared(cfg, device, k) && block > 0 && l == LayoutOf(cfg, device, k, block) && l.gap > 0
    requires j < |l.nums| && NoDup(l.nums) && FirstPlanned(l, shown, j) && OnlyFirst(l, shown, j)
    requires j > 0 ==> NumberAllowed(l.nums, k, 0)
    ensures Place(cfg, Parts(cfg, device, |cfg|)[j], shown, block, true) == Ok(l.Slot(j)) <==>
      NumberAllowed(l.nums, k, j) && Sized(cfg, device, block, k, j)
  {
    if j == 0 {
      FirstPlaced(cfg, device, k, block, l, shown);
    } else if l.nums[j] == 5 {
      FifthPlaced(cfg, device, k, block, l, shown, j);
    } else {
      LaterPlaced(cfg, device, k, block, l, shown, j);
    }
  }

  /** The first `n` commands succeed, and each of their partitions lies where the ones before it leave off. */
  ghost predicate AsPlanned(cfg: seq<Command>, device: string, k: nat, block: nat, n: nat)
    requires Declared(cfg, device, k) && block > 0 && n <= |cfg|
    requires |Parts(cfg, device, n)| <= |Parts(cfg, device, |cfg|)|
  {
    var shown := Shown(cfg, device, block, true, n);
    shown.Ok? && FirstPlanned(LayoutOf(cfg, device, k, block), shown.value, |Parts(cfg, device, n)|)
  }

  ghost predicate AllSized(cfg: seq<Command>, device: string, block: nat, k: nat)
    requires block > 0
  {
    forall j :: 0 <= j < |Parts(cfg, device, |cfg|)| ==> Sized(cfg, device, block, k, j)
  }

  /** Numbers and sizes allow the first `m` partitions. */
  ghost predicate Allowed(cfg: seq<Command>, device: string, k: nat, block: nat, m: nat)
    requires block > 0 && m <= |Parts(cfg, device, |cfg|)|
  {
    forall j :: 0 <= j < m ==> NumberAllowed(Numbers(cfg, device), k, j) && Sized(cfg, device, block, k, j)
  }

  lemma OneMoreAllowed(cfg: seq<Command>, device: string, k: nat, block: nat, m: nat)
    requires block > 0 && m < |Parts(cfg, device, |cfg|)|
    ensures Allowed(cfg, device, k, block, m + 1) <==>
      && Allowed(cfg, device, k, block, m)
      && NumberAllowed(Numbers(cfg, device), k, m) && Sized(cfg, device, block, k, m)
  {
  }

  lemma OneMorePlanned(l: Layout, shown: map<nat, Slot>, slot: Slot, n: nat)
    requires l.Valid() && NoDup(l.nums) && n < |l.nums|
    ensures FirstPlanned(l, shown[l.nums[n] := slot], n + 1) <==> FirstPlanned(l, shown, n) && slot == l.Slot(n)
  {
    var after := shown[l.nums[n] := slot];
    forall j | 0 <= j < n ensures PlannedAt(l, after, j) <==> PlannedAt(l, shown, j) {
    }
    assert PlannedAt(l, after, n) <==> slot == l.Slot(n);
  }

  lemma OneMoreShown(l: Layout, shown: map<nat, Slot>, slot: Slot, n: nat)
    requires n < |l.nums| && OnlyFirst(l, shown, n)
    ensures OnlyFirst(l, shown[l.nums[n] := slot], n + 1)
  {
    assert l.nums[..n + 1] == l.nums[..n] + [l.nums[n]];
  }

  lemma {:induction false} NumbersShown(cfg: seq<Command>, device: string, k: nat, block: nat, n: nat)
    requires Declared(cfg, device, k) && block > 0 && n <= |cfg| && Shown(cfg, device, block, true, n).Ok?
    ensures |Parts(cfg, device, n)| <= |Parts(cfg, device, |cfg|)|
    ensures var shown := Shown(cfg, device, block, true, n).value;
      OnlyFirst(LayoutOf(cfg, device, k, block), shown, |Parts(cfg, device, n)|)
  {
    PartsPrefix(cfg, device, n, |cfg|);
    if n > 0 {
      NumbersShown(cfg, device, k, block, n - 1);
      if OnDevice(cfg[n - 1], device) {
        PartsAt(cfg, device, |cfg|, n - 1);
        var shown := Shown(cfg, device, block, true, n - 1).value;
        OneMoreShown(LayoutOf(cfg, device, k, block), shown, Place(cfg, n - 1, shown, block, true).value,
                     |Parts(cfg, device, n - 1)|);
      }
    }
  }

  /** What is placed has a size. */
  lemma {:induction false} PlacedAreSized(cfg: seq<Command>, device: string, k: nat, block: nat, n: nat, j: nat)
    requires Declared(cfg, device, k) && block > 0 && n <= |cfg| && Shown(cfg, device, block, true, n).Ok?
    requires j < |Parts(cfg, device, n)| <= |Parts(cfg, device, |cfg|)|
    ensures Sized(cfg, device, block, k, j)
  {
    PartsPrefix(cfg, device, n - 1, |cfg|);
    if j < |Parts(cfg, device, n - 1)| {
      PlacedAreSized(cfg, device, k, block, n - 1, j);
    } else {
      PartsAt(cfg, device, |cfg|, n - 1);
      SectorsPlanned(cfg, device, k, block, j);
    }
  }

  lemma NextShown(cfg: seq<Command>, device: string, k: nat, block: nat, n: nat)
    requires Declared(cfg, device, k) && block > 0 && n < |cfg| && OnDevice(cfg[n], device)
    requires Shown(cfg, device, block, true, n).Ok? && |Parts(cfg, device, n)| < |Parts(cfg, device, |cfg|)|
    ensures var j, shown := |Parts(cfg, device, n)|, Shown(cfg, device, block, true, n).value;
      var placed, after := Place(cfg, n, shown, block, true), Shown(cfg, device, block, true, n + 1);
      && Parts(cfg, device, |cfg|)[j] == n && |Parts(cfg, device, n + 1)| == j + 1
      && after.Ok? == placed.Ok?
      && (placed.Ok? ==> after.value == shown[Numbers(cfg, device)[j] := placed.value])
  {
    PartsAt(cfg, device, |cfg|, n);
  }

  /** One command of the device takes the plan a step further exactly when its partition goes where it is planned. */
  lemma NextPlanned(cfg: seq<Command>, device: string, k: nat, block: nat, n: nat)
    requires Declared(cfg, device, k) && block > 0 && NoDup(Numbers(cfg, device))
    requires n < |cfg| && OnDevice(cfg[n], device)
    requires |Parts(cfg, device, n)| < |Parts(cfg, device, |cfg|)|
    ensures AsPlanned(cfg, device, k, block, n + 1) <==>
      && AsPlanned(cfg, device, k, block, n)
      && var shown := Shown(cfg, device, block, true, n).value;
        Place(cfg, n, shown, block, true) == Ok(LayoutOf(cfg, device, k, block).Slot(|Parts(cfg, device, n)|))
  {
    if Shown(cfg, device, block, true, n).Ok? {
      var shown := Shown(cfg, device, block, true, n).value;
      NextShown(cfg, device, k, block, n);
      var placed := Place(cfg, n, shown, block, true);
      if placed.Ok? {
        OneMorePlanned(LayoutOf(cfg, device, k, block), shown, placed.value, |Parts(cfg, device, n)|);
      }
    }
  }

  /** It does so exactly when its number and size allow it. */
  lemma OneAsPlanned(cfg: seq<Command>, device: string, k: nat, block: nat, n: nat)
    requires Declared(cfg, device, k) && block > 0 && ONE_MIB_BYTES / block > 0 && NoDup(Numbers(cfg, device))
    requires n < |cfg| && OnDevice(cfg[n], device)
    requires |Parts(cfg, device, n)| < |Parts(cfg, device, |cfg|)|
    requires AsPlanned(cfg, device, k, block, n) <==> Allowed(cfg, device, k, block, |Parts(cfg, device, n)|)
    ensures AsPlanned(cfg, device, k, block, n + 1) <==>
      Allowed(cfg, device, k, block, |Parts(cfg, device, n)| + 1)
  {
    var j := |Parts(cfg, device, n)|;
    NextPlanned(cfg, device, k, block, n);
    OneMoreAllowed(cfg, device, k, block, j);
    if AsPlanned(cfg, device, k, block, n) {
      PartsAt(cfg, device, |cfg|, n);
      NumbersShown(cfg, device, k, block, n);
      var shown := Shown(cfg, device, block, true, n).value;
      PlacedExactly(cfg, device, k, block, LayoutOf(cfg, device, k, block), shown, j);
    }
  }

  lemma {:induction false} AllAsPlanned(cfg: seq<Command>, device: string, k: nat, block: nat, n: nat)
    requires Declared(cfg, device, k) && block > 0 && ONE_MIB_BYTES / block > 0 && NoDup(Numbers(cfg, device))
    requires n <= |cfg|
    ensures |Parts(cfg, device, n)| <= |Parts(cfg, device, |cfg|)|
    ensures AsPlanned(cfg, device, k, block, n) <==> Allowed(cfg, device, k, block, |Parts(cfg, device, n)|)
  {
    PartsPrefix(cfg, device, n, |cfg|);
    if n > 0 {
      AllAsPlanned(cfg, device, k, block, n - 1);
      if OnDevice(cfg[n - 1], device) {
        PartsAt(cfg, device, |cfg|, n - 1);
        OneAsPlanned(cfg, device, k, block, n - 1);
      }
    }
  }

  /** Every partition is placed, each where the ones before it leave off, exactly when the numbers differ, the first
      is 1, 5 is that of the first logical one only, and every size is worth a sector. */
  lemma AsPlannedExactly(cfg: seq<Command>, device: string, k: nat, block: nat)
    requires Declared(cfg, device, k) && block > 0 && ONE_MIB_BYTES / block > 0
    ensures AsPlanned(cfg, device, k, block, |cfg|) <==>
      && WellNumbered(Numbers(cfg, device), k)
      && AllSized(cfg, device, block, k)
  {
    var l := LayoutOf(cfg, device, k, block);
    if AsPlanned(cfg, device, k, block, |cfg|) {
      forall j | 0 <= j < |l.nums| ensures Sized(cfg, device, block, k, j) {
        PlacedAreSized(cfg, device, k, block, |cfg|, j);
      }
      forall i, j | 0 <= i < j < |l.nums| ensures l.nums[i] != l.nums[j] {
        SlotsDiffer(l, cfg, device, block, i, j);
        var shown := Shown(cfg, device, block, true, |cfg|).value;
        assert PlannedAt(l, shown, i) && PlannedAt(l, shown, j);
      }
    }
    if NoDup(l.nums) {
      AllAsPlanned(cfg, device, k, block, |cfg|);
    }
  }

  /** `a` ends at least `gap` sectors before `b` starts. */
  ghost predicate Ahead(shown: map<nat, Slot>, a: nat, b: nat, gap: nat) {
    a in shown && b in shown && shown[a].start + shown[a].size + gap <= shown[b].start
  }

  ghost predicate Contains(shown: map<nat, Slot>, outer: nat, inner: nat) {
    outer in shown && inner in shown && Inside(shown[inner], shown[outer])
  }

  /** Every logical partition lies inside the extended one. */
  ghost predicate AllContained(shown: map<nat, Slot>, nums: seq<nat>, k: nat) {
    forall j :: k < j < |nums| ==> Contains(shown, nums[k], nums[j])
  }

  /** Primaries follow one another, the extended one last; logicals follow one another with a gap before each. */
  ghost predicate Spaced(shown: map<nat, Slot>, nums: seq<nat>, k: nat, gap: nat)
    requires k < |nums|
  {
    && (forall i, j :: 0 <= i < j <= k ==> Ahead(shown, nums[i], nums[j], 0))
    && (forall i, j :: k < i < j < |nums| ==> Ahead(shown, nums[i], nums[j], gap))
  }

  lemma PlannedFit(l: Layout, shown: map<nat, Slot>)
    requires l.Valid() && FirstPlanned(l, shown, |l.nums|)
    ensures AllContained(shown, l.nums, l.k) <==> LogicalsFit(l.sizes, l.k, l.gap, l.growth)
    ensures Spaced(shown, l.nums, l.k, l.gap)
  {
    forall j | l.k < j < |l.nums|
      ensures Contains(shown, l.nums[l.k], l.nums[j]) <==>
        Inside(SlotOf(l.sizes, l.k, l.gap, l.growth, j), SlotOf(l.sizes, l.k, l.gap, l.growth, l.k))
    {
      assert PlannedAt(l, shown, j) && PlannedAt(l, shown, l.k);
    }
    forall i, j | 0 <= i < j < |l.nums| && (j <= l.k || l.k < i)
      ensures Ahead(shown, l.nums[i], l.nums[j], if j <= l.k then 0 else l.gap)
    {
      assert PlannedAt(l, shown, i) && PlannedAt(l, shown, j);
      TakenGrows(l.sizes, l.k, l.gap, i, j);
    }
  }

  /** How many of the partitions so far are logical. */
  lemma {:induction false} PartsCounted(cfg: seq<Command>, device: string, k: nat, n: nat)
    requires Declared(cfg, device, k) && n <= |cfg|
    ensures var m := |Parts(cfg, device, n)|;
      && CountParts(cfg, device, false, n) == m
      && CountParts(cfg, device, true, n) == if m <= k then 0 else m - k - 1
  {
    if n > 0 {
      PartsCounted(cfg, device, k, n - 1);
      if OnDevice(cfg[n - 1], device) {
        PartsAt(cfg, device, |cfg|, n - 1);
      }
    }
  }

  /** Whatever has the logical flag on the device is a partition. */
  ghost predicate FlagsOnPartitions(cfg: seq<Command>, device: string) {
    forall c :: c in cfg && c.device == device && c.flag == "logical" ==> c.partition
  }

  lemma {:induction false} LogicalsCounted(cfg: seq<Command>, device: string, n: nat)
    requires n <= |cfg|
    ensures CountParts(cfg, device, true, n) <= CountLogical(cfg, device, n)
    ensures FlagsOnPartitions(cfg, device) ==> CountParts(cfg, device, true, n) == CountLogical(cfg, device, n)
  {
    if n > 0 {
      LogicalsCounted(cfg, device, n - 1);
      assert cfg[n - 1] in cfg;
    }
  }

  lemma {:induction false} MoreGaps(m: nat, n: nat, gap: nat)
    requires m <= n
    ensures Gaps(m, gap) <= Gaps(n, gap)
  {
    if m < n {
      MoreGaps(m, n - 1, gap);
    }
  }

  lemma EnoughGaps(cfg: seq<Command>, device: string, k: nat, gap: nat)
    requires Declared(cfg, device, k)
    ensures var needed := Gaps(|Parts(cfg, device, |cfg|)| - k - 1, gap);
      && needed <= Growth(cfg, device, gap)
      && (FlagsOnPartitions(cfg, device) ==> needed == Growth(cfg, device, gap))
  {
    PartsCounted(cfg, device, k, |cfg|);
    LogicalsCounted(cfg, device, |cfg|);
    MoreGaps(|Parts(cfg, device, |cfg|)| - k - 1, CountLogical(cfg, device, |cfg|), gap);
  }

  /** The sectors of the logicals and a gap each are no more than those of the extended partition. */
  ghost predicate RoomForLogicals(l: Layout)
    requires l.Valid()
  {
    || |l.nums| == l.k + 1
    || Sum(l.sizes[l.k + 1..]) + Gaps(|l.nums| - l.k - 1, l.gap) <= l.sizes[l.k] + l.growth
  }

  lemma LayoutFits(l: Layout, shown: map<nat, Slot>)
    requires l.Valid() && FirstPlanned(l, shown, |l.nums|)
    ensures AllContained(shown, l.nums, l.k) <==> RoomForLogicals(l)
    ensures Spaced(shown, l.nums, l.k, l.gap)
  {
    PlannedFit(l, shown);
    FitExactly(l.sizes, l.k, l.gap, l.growth);
  }

  /** The logicals lie inside the extended partition exactly when their sectors and a gap each are no more than what
      was asked for it and a gap for each logical item; no two partitions on one level overlap. */
  lemma HandlerLays(cfg: seq<Command>, device: string, k: nat, block: nat)
    requires Declared(cfg, device, k) && block > 0 && ONE_MIB_BYTES / block > 0
    requires WellNumbered(Numbers(cfg, device), k) && AllSized(cfg, device, block, k)
    ensures Shown(cfg, device, block, true, |cfg|).Ok?
    ensures var shown, l := Shown(cfg, device, block, true, |cfg|).value, LayoutOf(cfg, device, k, block);
      && (AllContained(shown, l.nums, k) <==> RoomForLogicals(l))
      && Spaced(shown, l.nums, k, l.gap)
  {
    AsPlannedExactly(cfg, device, k, block);
    LayoutFits(LayoutOf(cfg, device, k, block), Shown(cfg, device, block, true, |cfg|).value);
  }

  /** Logicals whose sizes add up to no more than the size asked for the extended partition always lie inside it, and
      only they do where every item of the device with the logical flag is a partition. */
  lemma HandlerFits(cfg: seq<Command>, device: string, k: nat, block: nat)
    requires Declared(cfg, device, k) && block > 0 && ONE_MIB_BYTES / block > 0
    requires WellNumbered(Numbers(cfg, device), k) && AllSized(cfg, device, block, k)
    ensures Shown(cfg, device, block, true, |cfg|).Ok?
    ensures var shown, nums := Shown(cfg, device, block, true, |cfg|).value, Numbers(cfg, device);
      var sizes := Sizes(cfg, device, block);
      && (Sum(sizes[k + 1..]) <= sizes[k] ==> AllContained(shown, nums, k))
      && (FlagsOnPartitions(cfg, device) ==>
          (AllContained(shown, nums, k) <==> |nums| == k + 1 || Sum(sizes[k + 1..]) <= sizes[k]))
      && Spaced(shown, nums, k, ONE_MIB_BYTES / block)
  {
    HandlerLays(cfg, device, k, block);
    EnoughGaps(cfg, device, k, ONE_MIB_BYTES / block);
  }

  // ----- Numbers that do -----

  /** The number of a partition for which none is given. */
  function CountedNumber(k: nat, j: nat): nat { if j <= k then j + 1 else 5 + (j - k - 1) }

  lemma NumberCounted(cfg: seq<Command>, device: string, k: nat, j: nat)
    requires Declared(cfg, device, k) && j < |Numbers(cfg, device)|
    requires cfg[Parts(cfg, device, |cfg|)[j]].number == 0
    ensures Numbers(cfg, device)[j] == CountedNumber(k, j)
  {
    PartsBefore(cfg, device, |cfg|, j);
    PartsCounted(cfg, device, k, Parts(cfg, device, |cfg|)[j]);
  }

  /** The `j`-th partition has its number counted. */
  predicate Unnumbered(cfg: seq<Command>, device: string, j: nat)
    requires j < |Parts(cfg, device, |cfg|)|
  {
    cfg[Parts(cfg, device, |cfg|)[j]].number == 0
  }

  /** Counted numbers do exactly when at most three primaries come before the extended partition. */
  lemma CountedNumbersDo(cfg: seq<Command>, device: string, k: nat)
    requires Declared(cfg, device, k)
    requires forall j :: 0 <= j < |Parts(cfg, device, |cfg|)| ==> Unnumbered(cfg, device, j)
    ensures WellNumbered(Numbers(cfg, device), k) <==> k <= 3
  {
    var nums := Numbers(cfg, device);
    forall j | 0 <= j < |nums| ensures nums[j] == CountedNumber(k, j) {
      assert Unnumbered(cfg, device, j);
      NumberCounted(cfg, device, k, j);
    }
    if k > 3 {
      assert !NumberAllowed(nums, k, 4);
    }
  }

  /** Numbers given to the primaries and the extended partition need only differ, within four, the first being 1. */
  lemma GivenNumbersDo(cfg: seq<Command>, device: string, k: nat)
    requires Declared(cfg, device, k)
    requires forall j :: k < j < |Parts(cfg, device, |cfg|)| ==> Unnumbered(cfg, device, j)
    requires var nums := Numbers(cfg, device);
      && nums[0] == 1 && NoDup(nums[..k + 1]) && forall j :: 0 <= j <= k ==> nums[j] <= 4
    ensures WellNumbered(Numbers(cfg, device), k)
  {
    var nums := Numbers(cfg, device);
    forall j | k < j < |nums| ensures nums[j] == CountedNumber(k, j) {
      assert Unnumbered(cfg, device, j);
      NumberCounted(cfg, device, k, j);
    }
    forall i, j | 0 <= i < j < |nums| ensures nums[i] != nums[j] {
      if j <= k {
        assert nums[..k + 1][i] != nums[..k + 1][j];
      }
    }
  }

  // ----- A primary declared after the extended partition -----

  /** The next partition of the device has the same partition before it as the extended one had. */
  lemma SamePrevious(cfg: seq<Command>, device: string, j: nat)
    requires j + 1 < |Parts(cfg, device, |cfg|)| && cfg[Parts(cfg, device, |cfg|)[j]].flag == "extended"
    ensures var ps := Parts(cfg, device, |cfg|);
      Previous(cfg, device, ps[j + 1]) == Previous(cfg, device, ps[j])
  {
    var ps := Parts(cfg, device, |cfg|);
    PartsBefore(cfg, device, |cfg|, j);
    PartsBefore(cfg, device, |cfg|, j + 1);
    PreviousIsLastPlain(cfg, device, ps[j]);
    PreviousIsLastPlain(cfg, device, ps[j + 1]);
    assert ps[..j + 1][..j] == ps[..j];
  }

  /** It is put where the extended partition starts, so the two always overlap. */
  lemma PrimaryAfterExtended(cfg: seq<Command>, device: string, j: nat, shown: map<nat, Slot>, block: nat)
    requires block > 0 && j + 1 < |Parts(cfg, device, |cfg|)| && NoDup(Numbers(cfg, device))
    requires var ps := Parts(cfg, device, |cfg|);
      cfg[ps[j]].flag == "extended" && cfg[ps[j + 1]].flag != "extended" && cfg[ps[j + 1]].flag != "logical"
    requires var nums := Numbers(cfg, device); nums[j] in {2, 3, 4} && nums[j + 1] in {2, 3, 4}
    requires Place(cfg, Parts(cfg, device, |cfg|)[j], shown, block, true).Ok?
    ensures var ps, nums := Parts(cfg, device, |cfg|), Numbers(cfg, device);
      var extended := Place(cfg, ps[j], shown, block, true).value;
      var next := Place(cfg, ps[j + 1], shown[nums[j] := extended], block, true);
      next.Ok? ==> next.value.start == extended.start && next.value.size > 0 && extended.size > 0
  {
    var ps, nums := Parts(cfg, device, |cfg|), Numbers(cfg, device);
    SamePrevious(cfg, device, j);
    var p := Previous(cfg, device, ps[j]).value;
    PartsAt(cfg, device, |cfg|, p);
    PartsBefore(cfg, device, |cfg|, j);
    PartsAt(cfg, device, ps[j], p);
    assert PartitionNumber(cfg, p) == nums[|Parts(cfg, device, p)|] != nums[j];
  }

  // ----- A configuration with other items and given numbers -----

  const SDA := "sda"

  const MIXED_CONFIG: seq<Command> := [
    Command(SDA, false, "", "", 0, 0),
    Command("boot", true, SDA, "", 1, 0x4000_0000),
    Command("other", true, "sdb", "", 0, 0x4000_0000),
    Command("ext", true, SDA, "extended", 4, 0x8000_0000),
    Command("home", true, SDA, "logical", 0, 0x4000_0000),
    Command("var", true, SDA, "logical", 0, 0x4000_0000),
    Command("mount", false, "home", "", 0, 0)
  ]

  lemma MixedParts()
    ensures Parts(MIXED_CONFIG, SDA, 7) == [1, 3, 4, 5]
  {
    assert Parts(MIXED_CONFIG, SDA, 1) == [];
    assert Parts(MIXED_CONFIG, SDA, 2) == [1];
    assert Parts(MIXED_CONFIG, SDA, 3) == [1];
    assert Parts(MIXED_CONFIG, SDA, 4) == [1, 3];
    assert Parts(MIXED_CONFIG, SDA, 5) == [1, 3, 4];
    assert Parts(MIXED_CONFIG, SDA, 6) == [1, 3, 4, 5];
  }

  lemma MixedNumbers()
    ensures Declared(MIXED_CONFIG, SDA, 1) && Numbers(MIXED_CONFIG, SDA) == [1, 4, 5, 6]
  {
    MixedParts();
    NumberCounted(MIXED_CONFIG, SDA, 1, 2);
    NumberCounted(MIXED_CONFIG, SDA, 1, 3);
  }

  lemma MixedSizes()
    ensures Sizes(MIXED_CONFIG, SDA, 512) == [0x20_0000, 0x40_0000, 0x20_0000, 0x20_0000]
    ensures Sum([0x20_0000, 0x20_0000]) == 0x40_0000
  {
    MixedParts();
    var logicals: seq<nat> := [0x20_0000, 0x20_0000];
    assert logicals[..1] == [0x20_0000] && logicals[..1][..0] == [];
  }

  lemma MixedAllowed()
    ensures Declared(MIXED_CONFIG, SDA, 1) && Numbers(MIXED_CONFIG, SDA) == [1, 4, 5, 6]
    ensures WellNumbered([1, 4, 5, 6], 1) && AllSized(MIXED_CONFIG, SDA, 512, 1)
  {
    MixedNumbers();
    MixedParts();
  }

  /** The extended partition has number 4, the logicals fill what was asked for it, and all is placed as planned. */
  lemma MixedConfigFits()
    ensures Declared(MIXED_CONFIG, SDA, 1) && Numbers(MIXED_CONFIG, SDA) == [1, 4, 5, 6]
    ensures AsPlanned(MIXED_CONFIG, SDA, 1, 512, |MIXED_CONFIG|)
    ensures AllContained(Shown(MIXED_CONFIG, SDA, 512, true, |MIXED_CONFIG|).value, [1, 4, 5, 6], 1)
  {
    MixedAllowed();
    MixedSizes();
    assert Sizes(MIXED_CONFIG, SDA, 512)[2..] == [0x20_0000, 0x20_0000];
    AsPlannedExactly(MIXED_CONFIG, SDA, 1, 512);
    HandlerFits(MIXED_CONFIG, SDA, 1, 512);
  }
}
