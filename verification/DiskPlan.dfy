/** What the version 2 disk handler decides before it touches the disk. */
module DiskPlan {
  import opened Wrappers
  import opened PartTables
  import DosTable

  datatype TableKind = Gpt | Dos

  /** A partition action of the storage configuration. */
  datatype PartAct = PartAct(id: string, part: Action, preserve: bool, resize: bool, wipe: Option<string>)

  /** A format action on the volume `volume`. */
  datatype Format = Format(volume: string, preserve: bool, fstype: string)

  /** A partition as sfdisk reports it, in sectors, with the file system found on it ("" for none). */
  datatype PartInfo = PartInfo(start: nat, size: nat, fstype: string)

  datatype Direction = Down | Up

  datatype Resize = Resize(fstype: string, size: nat, direction: Direction)

  datatype PlanError =
    | TableError(e: Error) | NoSuchPartition(start: nat) | WrongSize(id: string) | WrongOffset(id: string)
    | TooManyFormats(id: string) | WrongFstype(id: string) | Unsupported(fstype: string)

  /** Keyed by start sector. */
  datatype Plan = Plan(wipes: map<nat, Option<string>>, resizes: map<nat, Option<Resize>>, preserved: set<nat>)

  const EMPTY_PLAN := Plan(map[], map[], {})

  function WipeFor(a: PartAct): Option<string> {
    if DosTable.IsExtended(a.part) then None
    else if a.wipe.Some? then a.wipe
    else if a.preserve then None
    else Some("superblock")
  }

  function FormatsOf(formats: seq<Format>, id: string): seq<Format> {
    if formats == [] then []
    else (if formats[0].volume == id then [formats[0]] else []) + FormatsOf(formats[1..], id)
  }

  predicate Resizable(fstype: string) { fstype in ["ext2", "ext3", "ext4", "ntfs"] }

  function PrepareResize(g: Geometry, formats: seq<Format>, a: PartAct, info: PartInfo)
    : Result<Option<Resize>, PlanError>
  {
    var onVolume := FormatsOf(formats, a.id);
    var now := info.size * g.sectorBytes;
    if !a.preserve || !a.resize || info.fstype == "" then Ok(None)
    else if |onVolume| > 1 then Err(TooManyFormats(a.id))
    else if |onVolume| == 1 && !onVolume[0].preserve then Ok(None)
    else if |onVolume| == 1 && info.fstype != onVolume[0].fstype then Err(WrongFstype(a.id))
    else if !Resizable(info.fstype) then Err(Unsupported(info.fstype))
    else if now > a.part.size then Ok(Some(Resize(info.fstype, a.part.size, Down)))
    else if now < a.part.size then Ok(Some(Resize(info.fstype, a.part.size, Up)))
    else Ok(None)
  }

  /** The size sfdisk reports for an extended partition is counted in units of 512 bytes whatever the sector size. */
  function FoundSize(g: Geometry, a: PartAct, info: PartInfo): nat {
    info.size * if DosTable.IsExtended(a.part) then 512 else g.sectorBytes
  }

  function Verify(g: Geometry, a: PartAct, info: PartInfo): Option<PlanError> {
    if !a.resize && a.part.size != FoundSize(g, a, info) then Some(WrongSize(a.id))
    else if a.part.offset.Some? && a.part.offset.value != info.start * g.sectorBytes then Some(WrongOffset(a.id))
    else None
  }

  function FindInfo(infos: seq<PartInfo>, start: nat): Option<PartInfo> {
    if infos == [] then None else if infos[0].start == start then Some(infos[0]) else FindInfo(infos[1..], start)
  }

  /** What is decided for one action that became the entry `e`. */
  function PlanStep(g: Geometry, infos: seq<PartInfo>, formats: seq<Format>, plan: Plan, a: PartAct, e: Entry)
    : Result<Plan, PlanError>
  {
    var wiped := plan.wipes[e.start := WipeFor(a)];
    if !a.preserve then Ok(plan.(wipes := wiped))
    else
      match FindInfo(infos, e.start)
      case None => Err(NoSuchPartition(e.start))
      case Some(info) =>
        match Verify(g, a, info)
        case Some(err) => Err(err)
        case None =>
          match PrepareResize(g, formats, a, info)
          case Err(err) => Err(err)
          case Ok(rs) => Ok(Plan(wiped, plan.resizes[e.start := rs], plan.preserved + {e.start}))
  }

  function Parts(acts: seq<PartAct>): seq<Action> {
    seq(|acts|, i requires 0 <= i < |acts| => acts[i].part)
  }

  /** The entries the table holds after the actions. */
  function Layout(kind: TableKind, g: Geometry, acts: seq<PartAct>): Result<seq<Entry>, PlanError>
    requires g.sectorBytes > 0 && g.mib > 0
  {
    match kind
    case Gpt => Ok(GptLayout(g, Parts(acts)))
    case Dos => (match DosTable.DosLayout(g, Parts(acts)) case Err(e) => Err(TableError(e)) case Ok(t) => Ok(t.entries))
  }

  /** The decisions for the first `n` actions, or the first failure. */
  function Planned(g: Geometry, infos: seq<PartInfo>, formats: seq<Format>, acts: seq<PartAct>, entries: seq<Entry>,
                   n: nat): Result<Plan, PlanError>
    requires n <= |acts| == |entries|
  {
    if n == 0 then Ok(EMPTY_PLAN)
    else
      match Planned(g, infos, formats, acts, entries, n - 1)
      case Err(e) => Err(e)
      case Ok(plan) => PlanStep(g, infos, formats, plan, acts[n - 1], entries[n - 1])
  }

  ghost predicate DistinctStarts(entries: seq<Entry>) {
    forall i, j :: 0 <= i < j < |entries| ==> entries[i].start != entries[j].start
  }

  /** Nothing is decided about a start no action led to. */
  lemma {:induction false} PlannedKeys(g: Geometry, infos: seq<PartInfo>, formats: seq<Format>, acts: seq<PartAct>,
                                       entries: seq<Entry>, n: nat)
    requires n <= |acts| == |entries| && Planned(g, infos, formats, acts, entries, n).Ok?
    ensures var plan := Planned(g, infos, formats, acts, entries, n).value;
      && (forall o :: o in plan.wipes <==> exists i :: 0 <= i < n && entries[i].start == o)
      && (forall o :: o in plan.resizes <==> o in plan.preserved)
      && (forall o :: o in plan.preserved <==> exists i :: 0 <= i < n && acts[i].preserve && entries[i].start == o)
  {
    if n > 0 {
      PlannedKeys(g, infos, formats, acts, entries, n - 1);
    }
  }

  /** The plan says of each action's partition just what that action alone calls for. */
  lemma {:induction false} PlannedAt(g: Geometry, infos: seq<PartInfo>, formats: seq<Format>, acts: seq<PartAct>,
                                     entries: seq<Entry>, n: nat, i: nat)
    requires i < n <= |acts| == |entries| && DistinctStarts(entries)
    requires Planned(g, infos, formats, acts, entries, n).Ok?
    ensures var plan := Planned(g, infos, formats, acts, entries, n).value; var o := entries[i].start;
      && o in plan.wipes && plan.wipes[o] == WipeFor(acts[i])
      && (o in plan.preserved <==> acts[i].preserve)
      && (acts[i].preserve ==>
           (&& FindInfo(infos, o).Some? && Verify(g, acts[i], FindInfo(infos, o).value) == None
            && o in plan.resizes
            && PrepareResize(g, formats, acts[i], FindInfo(infos, o).value) == Ok(plan.resizes[o])))
      && (!acts[i].preserve ==> o !in plan.resizes)
  {
    if i < n - 1 {
      PlannedAt(g, infos, formats, acts, entries, n - 1, i);
      assert entries[i].start != entries[n - 1].start;
    } else {
      PlannedKeys(g, infos, formats, acts, entries, n - 1);
    }
  }

  /** The whole plan comes out. */
  ghost predicate Made(kind: TableKind, g: Geometry, infos: seq<PartInfo>, formats: seq<Format>, acts: seq<PartAct>)
    requires g.sectorBytes > 0 && g.mib > 0
  {
    var layout := Layout(kind, g, acts);
    layout.Ok? && |layout.value| == |acts| && Planned(g, infos, formats, acts, layout.value, |acts|).Ok?
  }

  lemma LayoutInit(kind: TableKind, g: Geometry, acts: seq<PartAct>)
    requires g.sectorBytes > 0 && g.mib > 0 && acts != [] && Layout(kind, g, acts).Ok?
    ensures var init, entries := Layout(kind, g, acts[..|acts| - 1]), Layout(kind, g, acts).value;
      init.Ok? && entries != [] && init.value == entries[..|entries| - 1]
  {
    assert Parts(acts)[..|acts| - 1] == Parts(acts[..|acts| - 1]);
  }

  lemma {:induction false} PlannedExtends(g: Geometry, infos: seq<PartInfo>, formats: seq<Format>, acts: seq<PartAct>,
                                          entries: seq<Entry>, moreActs: seq<PartAct>, moreEntries: seq<Entry>, n: nat)
    requires n <= |acts| == |entries| && |moreActs| == |moreEntries|
    ensures Planned(g, infos, formats, acts + moreActs, entries + moreEntries, n)
      == Planned(g, infos, formats, acts, entries, n)
  {
    if n > 0 {
      PlannedExtends(g, infos, formats, acts, entries, moreActs, moreEntries, n - 1);
    }
  }

  lemma MadeInit(kind: TableKind, g: Geometry, infos: seq<PartInfo>, formats: seq<Format>, acts: seq<PartAct>)
    requires g.sectorBytes > 0 && g.mib > 0 && acts != [] && Made(kind, g, infos, formats, acts)
    ensures Made(kind, g, infos, formats, acts[..|acts| - 1])
  {
    var n, entries := |acts| - 1, Layout(kind, g, acts).value;
    var init, first := acts[..n], entries[..n];
    LayoutInit(kind, g, acts);
    PlannedExtends(g, infos, formats, init, first, [acts[n]], [entries[n]], n);
    assert acts == init + [acts[n]] && entries == first + [entries[n]];
  }

  /** What cannot be planned for the first actions cannot be planned for more. */
  lemma {:induction false} MadeFirst(kind: TableKind, g: Geometry, infos: seq<PartInfo>, formats: seq<Format>,
                                     acts: seq<PartAct>, n: nat)
    requires g.sectorBytes > 0 && g.mib > 0 && n <= |acts| && Made(kind, g, infos, formats, acts)
    ensures Made(kind, g, infos, formats, acts[..n])
    decreases |acts|
  {
    if n == |acts| {
      assert acts[..n] == acts;
    } else {
      MadeInit(kind, g, infos, formats, acts);
      MadeFirst(kind, g, infos, formats, acts[..|acts| - 1], n);
      assert acts[..n] == acts[..|acts| - 1][..n];
    }
  }
}
