/** The version 2 disk handler at work: shrink, wipe what goes, apply the table, wipe what is new, grow. */
module DiskRun {
  import opened PartTables
  import opened DiskPlan

  /** A partition as the kernel shows it, known by where it starts in bytes. */
  datatype KPart = KPart(offset: nat)

  datatype Event =
    | Resized(start: nat, fstype: string, size: nat)
    | Wiped(start: nat, mode: string)
    | Zeroed(offset: nat)
    | Applied

  // ----- The run as a function of the plan and of what the kernel shows -----

  function ResizeEvent(plan: Plan, start: nat, direction: Direction): seq<Event> {
    if start in plan.resizes && plan.resizes[start].Some? && plan.resizes[start].value.direction == direction then
      [Resized(start, plan.resizes[start].value.fstype, plan.resizes[start].value.size)]
    else []
  }

  function Shrinks(g: Geometry, plan: Plan, ks: seq<KPart>, n: nat): seq<Event>
    requires g.sectorBytes > 0 && n <= |ks|
  {
    if n == 0 then []
    else Shrinks(g, plan, ks, n - 1) + ResizeEvent(plan, g.Sectors(ks[n - 1].offset), Down)
  }

  function PreWipe(g: Geometry, plan: Plan, k: KPart): seq<Event>
    requires g.sectorBytes > 0
  {
    var o := g.Sectors(k.offset);
    if o !in plan.preserved then [Wiped(o, "superblock")]
    else if o in plan.wipes && plan.wipes[o].Some? then [Zeroed(k.offset)]
    else []
  }

  function PreWipes(g: Geometry, plan: Plan, ks: seq<KPart>, n: nat): seq<Event>
    requires g.sectorBytes > 0 && n <= |ks|
  {
    if n == 0 then [] else PreWipes(g, plan, ks, n - 1) + PreWipe(g, plan, ks[n - 1])
  }

  /** Every partition shown after the table was applied has its entry in `wipes`. */
  predicate Expected(g: Geometry, plan: Plan, after: seq<KPart>)
    requires g.sectorBytes > 0
  {
    forall i :: 0 <= i < |after| ==> g.Sectors(after[i].offset) in plan.wipes
  }

  function FinalWipe(plan: Plan, o: nat): seq<Event>
    requires o in plan.wipes
  {
    if plan.wipes[o].Some? then [Wiped(o, plan.wipes[o].value)] else []
  }

  function Finish(plan: Plan, o: nat): seq<Event>
    requires o in plan.wipes
  {
    FinalWipe(plan, o) + ResizeEvent(plan, o, Up)
  }

  function Finishes(g: Geometry, plan: Plan, after: seq<KPart>, n: nat): seq<Event>
    requires g.sectorBytes > 0 && Expected(g, plan, after) && n <= |after|
  {
    if n == 0 then [] else Finishes(g, plan, after, n - 1) + Finish(plan, g.Sectors(after[n - 1].offset))
  }

  function Before(g: Geometry, plan: Plan, before: seq<KPart>): seq<Event>
    requires g.sectorBytes > 0
  {
    Shrinks(g, plan, before, |before|) + PreWipes(g, plan, before, |before|)
  }

  function RunLog(g: Geometry, plan: Plan, before: seq<KPart>, after: seq<KPart>): seq<Event>
    requires g.sectorBytes > 0 && Expected(g, plan, after)
  {
    Before(g, plan, before) + [Applied] + Finishes(g, plan, after, |after|)
  }

  method ShrinkAll(g: Geometry, plan: Plan, before: seq<KPart>) returns (log: seq<Event>)
    requires g.sectorBytes > 0
    ensures log == Shrinks(g, plan, before, |before|)
  {
    log := [];
    for n := 0 to |before|
      invariant log == Shrinks(g, plan, before, n)
    {
      var o := g.Sectors(before[n].offset);
      if o in plan.resizes && plan.resizes[o].Some? && plan.resizes[o].value.direction == Down {
        log := log + [Resized(o, plan.resizes[o].value.fstype, plan.resizes[o].value.size)];
      }
    }
  }

  method PreWipeAll(g: Geometry, plan: Plan, before: seq<KPart>) returns (log: seq<Event>)
    requires g.sectorBytes > 0
    ensures log == PreWipes(g, plan, before, |before|)
  {
    log := [];
    for n := 0 to |before|
      invariant log == PreWipes(g, plan, before, n)
    {
      var o := g.Sectors(before[n].offset);
      if o !in plan.preserved {
        log := log + [Wiped(o, "superblock")];
      } else if o in plan.wipes && plan.wipes[o].Some? {
        log := log + [Zeroed(before[n].offset)];
      }
    }
  }

  method FinishAll(g: Geometry, plan: Plan, after: seq<KPart>) returns (log: seq<Event>)
    requires g.sectorBytes > 0 && Expected(g, plan, after)
    ensures log == Finishes(g, plan, after, |after|)
  {
    log := [];
    for n := 0 to |after|
      invariant log == Finishes(g, plan, after, n)
    {
      var o := g.Sectors(after[n].offset);
      var wipe := plan.wipes[o];
      if wipe.Some? {
        log := log + [Wiped(o, wipe.value)];
      }
      if o in plan.resizes && plan.resizes[o].Some? && plan.resizes[o].value.direction == Up {
        log := log + [Resized(o, plan.resizes[o].value.fstype, plan.resizes[o].value.size)];
      }
    }
  }

  /** The three loops of the handler around `table.apply`. The precondition is what keeps the
      lookup in `wipes` from failing; `LookupNeverFails` discharges it. */
  method RunPlan(g: Geometry, plan: Plan, before: seq<KPart>, after: seq<KPart>) returns (log: seq<Event>)
    requires g.sectorBytes > 0 && Expected(g, plan, after)
    ensures log == RunLog(g, plan, before, after)
  {
    var shrinks := ShrinkAll(g, plan, before);
    var preWipes := PreWipeAll(g, plan, before);
    var finishes := FinishAll(g, plan, after);
    log := shrinks + preWipes + [Applied] + finishes;
  }

  /** Some listed partition sits at `o`. */
  ghost predicate Shown(g: Geometry, ks: seq<KPart>, n: nat, o: nat)
    requires g.sectorBytes > 0 && n <= |ks|
  {
    exists k :: 0 <= k < n && g.Sectors(ks[k].offset) == o
  }
}
