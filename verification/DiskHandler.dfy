/** The version 2 disk handler from start to end, and what its run does in terms of the actions. */
module DiskHandler {
  import opened Wrappers
  import opened Alignment
  import opened PartTables
  import opened DiskPlan
  import opened DiskActions
  import opened DiskPlanner
  import opened DiskRun
  import opened DiskState
  import opened DiskSafety
  import DosTable

  // ----- The events before and after the table -----

  /** In a log that has one event just once, what precedes it and what it precedes. */
  lemma AroundOne(head: seq<Event>, one: Event, tail: seq<Event>, ev: Event)
    requires one !in head && one !in tail
    ensures Precedes(head + [one] + tail, ev, one) <==> ev in head
    ensures Precedes(head + [one] + tail, one, ev) <==> ev in tail
  {
    var log := head + [one] + tail;
    assert forall i :: 0 <= i < |head| ==> log[i] == head[i] && log[i] != one;
    assert forall i :: |head| < i < |log| ==> log[i] == tail[i - |head| - 1] && log[i] != one;
    if ev in head {
      var i :| 0 <= i < |head| && head[i] == ev;
      assert log[i] == ev && log[|head|] == one;
    }
    if ev in tail {
      var i :| 0 <= i < |tail| && tail[i] == ev;
      assert log[|head|] == one && log[|head| + 1 + i] == ev;
    }
  }

  lemma BeforeApplied(g: Geometry, plan: Plan, before: seq<KPart>, after: seq<KPart>, ev: Event)
    requires g.sectorBytes > 0 && Expected(g, plan, after)
    ensures Precedes(RunLog(g, plan, before, after), ev, Applied) <==> ev in Before(g, plan, before)
    ensures Precedes(RunLog(g, plan, before, after), Applied, ev) <==> ev in Finishes(g, plan, after, |after|)
  {
    ShrinksOnlyResize(g, plan, before, |before|);
    PreWipesOnlyWipe(g, plan, before, |before|);
    FinishesNeverApply(g, plan, after, |after|);
    AroundOne(Before(g, plan, before), Applied, Finishes(g, plan, after, |after|), ev);
  }

  lemma {:induction false} ShrinksAre(g: Geometry, plan: Plan, ks: seq<KPart>, n: nat, ev: Event)
    requires g.sectorBytes > 0 && n <= |ks|
    ensures ev in Shrinks(g, plan, ks, n) <==>
      exists k :: 0 <= k < n && ev in ResizeEvent(plan, g.Sectors(ks[k].offset), Down)
  {
    if n > 0 {
      ShrinksAre(g, plan, ks, n - 1, ev);
      if ev in Shrinks(g, plan, ks, n) && ev !in Shrinks(g, plan, ks, n - 1) {
        assert ev in ResizeEvent(plan, g.Sectors(ks[n - 1].offset), Down);
      }
    }
  }

  lemma FinishHas(plan: Plan, o: nat, ev: Event)
    requires o in plan.wipes
    ensures ev in Finish(plan, o) <==> ev in FinalWipe(plan, o) || ev in ResizeEvent(plan, o, Up)
  {
  }

  // ----- One action's partition -----

  /** Once the table is applied the partition is wiped in the mode asked for, a new one by default, and no other. */
  ghost predicate WipedAsAsked(a: PartAct, o: nat, log: seq<Event>) {
    forall mode :: Precedes(log, Applied, Wiped(o, mode)) <==> WipedWith(a, mode)
  }

  /** Before the table a partition that goes has its superblock wiped, and one that stays nothing. */
  ghost predicate ClearedAsAsked(g: Geometry, a: PartAct, o: nat, before: seq<KPart>, log: seq<Event>)
    requires g.sectorBytes > 0
  {
    forall mode :: Precedes(log, Wiped(o, mode), Applied) <==>
      !a.preserve && mode == "superblock" && Shown(g, before, |before|, o)
  }

  /** Before the table, and only then, a partition that stays and is to be wiped has its first MiB zeroed. */
  ghost predicate ZeroedAsAsked(g: Geometry, a: PartAct, o: nat, before: seq<KPart>, log: seq<Event>)
    requires g.sectorBytes > 0
  {
    forall off :: g.Sectors(off) == o ==>
      && (Precedes(log, Zeroed(off), Applied) <==> a.preserve && !NotWiped(a) && KPart(off) in before)
      && !Precedes(log, Applied, Zeroed(off))
  }

  /** A resize that is due and changes the size is made: a shrink before the table, a growth after it. */
  ghost predicate ResizedAsAsked(g: Geometry, formats: seq<Format>, a: PartAct, info: PartInfo, o: nat,
                                 before: seq<KPart>, log: seq<Event>)
    requires g.sectorBytes > 0
  {
    var due, now, asked := ResizeDue(a, info, formats), info.size * g.sectorBytes, a.part.size;
    forall fstype, size ::
      && (Precedes(log, Resized(o, fstype, size), Applied) <==>
            due && asked < now && fstype == info.fstype && size == asked && Shown(g, before, |before|, o))
      && (Precedes(log, Applied, Resized(o, fstype, size)) <==>
            due && now < asked && fstype == info.fstype && size == asked)
  }

  ghost predicate NeverResized(o: nat, log: seq<Event>) {
    forall fstype, size ::
      !Precedes(log, Resized(o, fstype, size), Applied) && !Precedes(log, Applied, Resized(o, fstype, size))
  }

  /** The run does to the partition at `o` what its action asks for. */
  ghost predicate DoneAsAsked(g: Geometry, infos: seq<PartInfo>, formats: seq<Format>, a: PartAct, o: nat,
                              before: seq<KPart>, log: seq<Event>)
    requires g.sectorBytes > 0
  {
    && WipedAsAsked(a, o, log) && ClearedAsAsked(g, a, o, before, log) && ZeroedAsAsked(g, a, o, before, log)
    && (!a.preserve ==> NeverResized(o, log))
    && (a.preserve ==>
          exists info :: Reported(infos, o, info) && ResizedAsAsked(g, formats, a, info, o, before, log))
  }

  lemma WipesDone(g: Geometry, plan: Plan, a: PartAct, o: nat, before: seq<KPart>, after: seq<KPart>)
    requires g.sectorBytes > 0 && Expected(g, plan, after) && Shown(g, after, |after|, o) && o in plan.wipes
    requires forall mode :: plan.wipes[o] == Some(mode) <==> WipedWith(a, mode)
    requires o in plan.preserved <==> a.preserve
    ensures var log := RunLog(g, plan, before, after);
      WipedAsAsked(a, o, log) && ClearedAsAsked(g, a, o, before, log)
  {
    forall mode
      ensures var log := RunLog(g, plan, before, after);
        && (Precedes(log, Applied, Wiped(o, mode)) <==> WipedWith(a, mode))
        && (Precedes(log, Wiped(o, mode), Applied) <==>
              !a.preserve && mode == "superblock" && Shown(g, before, |before|, o))
    {
      BeforeApplied(g, plan, before, after, Wiped(o, mode));
      WipedBefore(g, plan, before, o, mode, 0);
      WipedAfter(g, plan, after, o, mode);
    }
  }

  lemma ZeroingDone(g: Geometry, plan: Plan, a: PartAct, o: nat, before: seq<KPart>, after: seq<KPart>)
    requires g.sectorBytes > 0 && Expected(g, plan, after) && o in plan.wipes
    requires (plan.wipes[o] == None <==> NotWiped(a)) && (o in plan.preserved <==> a.preserve)
    ensures ZeroedAsAsked(g, a, o, before, RunLog(g, plan, before, after))
  {
    forall off | g.Sectors(off) == o
      ensures var log := RunLog(g, plan, before, after);
        && (Precedes(log, Zeroed(off), Applied) <==> a.preserve && !NotWiped(a) && KPart(off) in before)
        && !Precedes(log, Applied, Zeroed(off))
    {
      BeforeApplied(g, plan, before, after, Zeroed(off));
      WipedBefore(g, plan, before, o, "", off);
      FinishEvents(g, plan, after, |after|, Zeroed(off));
      if a.preserve && !NotWiped(a) && KPart(off) in before {
        var k :| 0 <= k < |before| && before[k] == KPart(off);
        assert PreWipe(g, plan, before[k]) == [Zeroed(off)];
      }
    }
  }

  /** What the plan says of a resize is done: a shrink before the table, a growth after it. */
  lemma ResizesDone(g: Geometry, plan: Plan, o: nat, before: seq<KPart>, after: seq<KPart>, fstype: string, size: nat)
    requires g.sectorBytes > 0 && Expected(g, plan, after) && Shown(g, after, |after|, o)
    ensures var log, ev := RunLog(g, plan, before, after), Resized(o, fstype, size);
      && (Precedes(log, ev, Applied) <==> Shown(g, before, |before|, o) && ev in ResizeEvent(plan, o, Down))
      && (Precedes(log, Applied, ev) <==> ev in ResizeEvent(plan, o, Up))
  {
    var ev := Resized(o, fstype, size);
    BeforeApplied(g, plan, before, after, ev);
    ShrinksAre(g, plan, before, |before|, ev);
    PreWipesOnlyWipe(g, plan, before, |before|);
    FinishEvents(g, plan, after, |after|, ev);
    forall k | 0 <= k < |after| ensures g.Sectors(after[k].offset) in plan.wipes {
    }
    if ev in Finishes(g, plan, after, |after|) {
      var k :| 0 <= k < |after| && ev in Finish(plan, g.Sectors(after[k].offset));
      FinishHas(plan, g.Sectors(after[k].offset), ev);
    }
    if ev in ResizeEvent(plan, o, Up) {
      var k :| 0 <= k < |after| && g.Sectors(after[k].offset) == o;
      FinishHas(plan, o, ev);
    }
  }

  lemma ResizedFromPlan(g: Geometry, formats: seq<Format>, a: PartAct, info: PartInfo, plan: Plan, o: nat,
                        before: seq<KPart>, after: seq<KPart>)
    requires g.sectorBytes > 0 && Expected(g, plan, after) && Shown(g, after, |after|, o)
    requires o in plan.resizes && ResizedFor(g, formats, a, info, plan.resizes[o])
    ensures ResizedAsAsked(g, formats, a, info, o, before, RunLog(g, plan, before, after))
  {
    forall fstype, size
      ensures var log, due, now, asked :=
          RunLog(g, plan, before, after), ResizeDue(a, info, formats), info.size * g.sectorBytes, a.part.size;
        && (Precedes(log, Resized(o, fstype, size), Applied) <==>
              due && asked < now && fstype == info.fstype && size == asked && Shown(g, before, |before|, o))
        && (Precedes(log, Applied, Resized(o, fstype, size)) <==>
              due && now < asked && fstype == info.fstype && size == asked)
    {
      ResizesDone(g, plan, o, before, after, fstype, size);
    }
  }

  lemma ActionDone(g: Geometry, infos: seq<PartInfo>, formats: seq<Format>, a: PartAct, plan: Plan, o: nat,
                   before: seq<KPart>, after: seq<KPart>)
    requires g.sectorBytes > 0 && Expected(g, plan, after) && Shown(g, after, |after|, o)
    requires DecidedFor(g, infos, formats, a, plan, o)
    ensures DoneAsAsked(g, infos, formats, a, o, before, RunLog(g, plan, before, after))
  {
    var log := RunLog(g, plan, before, after);
    WipesAre(a);
    WipesDone(g, plan, a, o, before, after);
    assert plan.wipes[o].Some? ==> WipedWith(a, plan.wipes[o].value);
    assert plan.wipes[o] == None <==> NotWiped(a);
    ZeroingDone(g, plan, a, o, before, after);
    if a.preserve {
      var info :| Reported(infos, o, info) && ResizedFor(g, formats, a, info, plan.resizes[o]);
      ResizedFromPlan(g, formats, a, info, plan, o, before, after);
    } else {
      forall fstype, size
        ensures !Precedes(log, Resized(o, fstype, size), Applied) && !Precedes(log, Applied, Resized(o, fstype, size))
      {
        ResizesDone(g, plan, o, before, after, fstype, size);
      }
    }
  }

  // ----- Other partitions -----

  /** A partition that no action is for has its superblock wiped before the table, and nothing else done to it. */
  ghost predicate OnlyCleared(g: Geometry, o: nat, before: seq<KPart>, log: seq<Event>)
    requires g.sectorBytes > 0
  {
    && NeverResized(o, log)
    && (forall mode :: Precedes(log, Wiped(o, mode), Applied) <==>
          mode == "superblock" && Shown(g, before, |before|, o))
    && (forall mode :: !Precedes(log, Applied, Wiped(o, mode)))
    && (forall off :: g.Sectors(off) == o ==>
          !Precedes(log, Zeroed(off), Applied) && !Precedes(log, Applied, Zeroed(off)))
  }

  lemma OtherEvents(g: Geometry, plan: Plan, o: nat, before: seq<KPart>, after: seq<KPart>, mode: string,
                    fstype: string, size: nat, off: nat)
    requires g.sectorBytes > 0 && Expected(g, plan, after) && g.Sectors(off) == o
    requires o !in plan.wipes && o !in plan.preserved && o !in plan.resizes
    ensures var log := RunLog(g, plan, before, after);
      && !Precedes(log, Resized(o, fstype, size), Applied) && !Precedes(log, Applied, Resized(o, fstype, size))
      && (Precedes(log, Wiped(o, mode), Applied) <==> mode == "superblock" && Shown(g, before, |before|, o))
      && !Precedes(log, Applied, Wiped(o, mode))
      && !Precedes(log, Zeroed(off), Applied) && !Precedes(log, Applied, Zeroed(off))
  {
    var resized := Resized(o, fstype, size);
    BeforeApplied(g, plan, before, after, resized);
    BeforeApplied(g, plan, before, after, Wiped(o, mode));
    BeforeApplied(g, plan, before, after, Zeroed(off));
    ShrinksAre(g, plan, before, |before|, resized);
    PreWipesOnlyWipe(g, plan, before, |before|);
    FinishEvents(g, plan, after, |after|, resized);
    FinishEvents(g, plan, after, |after|, Zeroed(off));
    WipedBefore(g, plan, before, o, mode, off);
    WipedAfter(g, plan, after, o, mode);
  }

  lemma OthersDone(g: Geometry, plan: Plan, o: nat, before: seq<KPart>, after: seq<KPart>)
    requires g.sectorBytes > 0 && Expected(g, plan, after)
    requires o !in plan.wipes && o !in plan.preserved && o !in plan.resizes
    ensures OnlyCleared(g, o, before, RunLog(g, plan, before, after))
  {
    var log, sector := RunLog(g, plan, before, after), g.sectorBytes;
    assert g.Sectors(o * sector) == o by {
      DivModUnique(o * sector, sector, o, 0);
    }
    forall fstype, size
      ensures !Precedes(log, Resized(o, fstype, size), Applied) && !Precedes(log, Applied, Resized(o, fstype, size))
    {
      OtherEvents(g, plan, o, before, after, "", fstype, size, o * sector);
    }
    forall mode
      ensures Precedes(log, Wiped(o, mode), Applied) <==> mode == "superblock" && Shown(g, before, |before|, o)
      ensures !Precedes(log, Applied, Wiped(o, mode))
    {
      OtherEvents(g, plan, o, before, after, mode, "", 0, o * sector);
    }
    forall off | g.Sectors(off) == o
      ensures !Precedes(log, Zeroed(off), Applied) && !Precedes(log, Applied, Zeroed(off))
    {
      OtherEvents(g, plan, o, before, after, "", "", 0, off);
    }
  }

  // ----- Kept data, in terms of the actions -----

  /** Some action preserves the partition the kernel shows there, and asks for a wipe. */
  ghost predicate ToZero(g: Geometry, acts: seq<PartAct>, entries: seq<Entry>, k: KPart)
    requires g.sectorBytes > 0 && |acts| == |entries|
  {
    exists j :: 0 <= j < |acts| && entries[j].start == g.Sectors(k.offset) && acts[j].preserve && !NotWiped(acts[j])
  }

  /** No zeroing of a preserved partition that is to be wiped reaches the partition at `o`. */
  ghost predicate ZeroingMisses(g: Geometry, acts: seq<PartAct>, entries: seq<Entry>, before: seq<KPart>,
                                parts: map<nat, nat>, o: nat)
    requires g.sectorBytes > 0 && |acts| == |entries| && o in parts
  {
    forall k :: 0 <= k < |before| && ToZero(g, acts, entries, before[k]) ==>
      !Overlap(before[k].offset, ONE_MIB_BYTES, o * g.sectorBytes, parts[o])
  }

  /** If a resize is made, the new file system fits the whole sectors of the size asked for. */
  ghost predicate FitsAsked(g: Geometry, formats: seq<Format>, a: PartAct, info: PartInfo)
    requires g.sectorBytes > 0
  {
    ResizeDue(a, info, formats) && a.part.size != info.size * g.sectorBytes ==>
      ResizedTo(info.fstype, a.part.size) <= a.part.size / g.sectorBytes * g.sectorBytes
  }

  lemma ZeroedByActions(g: Geometry, infos: seq<PartInfo>, formats: seq<Format>, acts: seq<PartAct>,
                        entries: seq<Entry>, plan: Plan, k: KPart)
    requires g.sectorBytes > 0 && |acts| == |entries| && DistinctStarts(entries)
    requires Planned(g, infos, formats, acts, entries, |acts|) == Ok(plan)
    ensures PreWipe(g, plan, k) == [Zeroed(k.offset)] <==> ToZero(g, acts, entries, k)
  {
    var o := g.Sectors(k.offset);
    PlannedKeys(g, infos, formats, acts, entries, |acts|);
    forall j | 0 <= j < |acts| && entries[j].start == o
      ensures PreWipe(g, plan, k) == [Zeroed(k.offset)] <==> acts[j].preserve && !NotWiped(acts[j])
    {
      PlannedAt(g, infos, formats, acts, entries, |acts|, j);
      WipesAre(acts[j]);
    }
  }

  lemma ZeroingByActions(g: Geometry, infos: seq<PartInfo>, formats: seq<Format>, acts: seq<PartAct>,
                         entries: seq<Entry>, plan: Plan, before: seq<KPart>, parts: map<nat, nat>, o: nat)
    requires g.sectorBytes > 0 && |acts| == |entries| && DistinctStarts(entries) && o in parts
    requires Planned(g, infos, formats, acts, entries, |acts|) == Ok(plan)
    ensures ZeroingSpares(g, plan, before, parts, o) <==> ZeroingMisses(g, acts, entries, before, parts, o)
  {
    forall k | 0 <= k < |before|
      ensures PreWipe(g, plan, before[k]) == [Zeroed(before[k].offset)] <==> ToZero(g, acts, entries, before[k])
    {
      ZeroedByActions(g, infos, formats, acts, entries, plan, before[k]);
    }
  }

  lemma FitsByFields(g: Geometry, formats: seq<Format>, a: PartAct, info: PartInfo, plan: Plan, o: nat)
    requires g.sectorBytes > 0 && o in plan.resizes && ResizedFor(g, formats, a, info, plan.resizes[o])
    ensures FitsTable(g, plan, o, a.part.size) <==> FitsAsked(g, formats, a, info)
  {
  }

  // ----- The whole run -----

  /** For the kept partition of action `i`: when its file system is safe at every step. */
  ghost predicate SafeExactly(g: Geometry, entries: seq<Entry>, plan: Plan, before: seq<KPart>, after: seq<KPart>,
                              d: Disk, log: seq<Event>, i: nat, size: nat)
    requires g.sectorBytes > 0 && i < |entries| && Expected(g, plan, after)
  {
    var o := entries[i].start;
    AlwaysFits(g, entries, d, log, o) <==>
      && SparedBefore(g, plan, before, d.parts, o) && SparedAfter(g, entries, plan, after, o)
      && FitsTable(g, plan, o, size)
  }

  /** The same where partitions do not overlap, in terms of the actions: zeroing is the only threat besides a misfit. */
  ghost predicate SafeUnlessZeroed(g: Geometry, infos: seq<PartInfo>, formats: seq<Format>, acts: seq<PartAct>,
                                   entries: seq<Entry>, before: seq<KPart>, d: Disk, log: seq<Event>, i: nat)
    requires g.sectorBytes > 0 && i < |entries| == |acts|
  {
    var o := entries[i].start;
    && o in d.parts
    && exists info :: Reported(infos, o, info)
         && (AlwaysFits(g, entries, d, log, o) <==>
               ZeroingMisses(g, acts, entries, before, d.parts, o) && FitsAsked(g, formats, acts[i], info))
  }

  /** What a run of the handler amounts to, in terms of the actions: each action's partition is treated as it asks,
      and any other has its superblock wiped before the table; each kept file system is safe exactly under the
      stated conditions. */
  ghost predicate Accounted(kind: TableKind, g: Geometry, infos: seq<PartInfo>, formats: seq<Format>,
                            acts: seq<PartAct>, before: seq<KPart>, after: seq<KPart>, d: Disk, plan: Plan,
                            entries: seq<Entry>, log: seq<Event>)
    requires g.sectorBytes > 0 && g.mib > 0
  {
    && Layout(kind, g, acts) == Ok(entries) && |entries| == |acts|
    && Planned(g, infos, formats, acts, entries, |acts|) == Ok(plan)
    && Expected(g, plan, after) && log == RunLog(g, plan, before, after)
    && (DistinctStarts(entries) ==>
          forall i :: 0 <= i < |acts| ==> DoneAsAsked(g, infos, formats, acts[i], entries[i].start, before, log))
    && (forall o :: (forall i :: 0 <= i < |entries| ==> entries[i].start != o) ==> OnlyCleared(g, o, before, log))
    && (forall i: nat :: KeptHere(g, infos, formats, acts, entries, before, d, i) ==>
          && SafeExactly(g, entries, plan, before, after, d, log, i, acts[i].part.size)
          && ((Regular(kind, g, acts) || WipedApart(acts, entries, i)) && Apart(g, d.parts, entries[i].start) ==>
                SafeUnlessZeroed(g, infos, formats, acts, entries, before, d, log, i)))
  }

  lemma KeptByFields(g: Geometry, infos: seq<PartInfo>, formats: seq<Format>, acts: seq<PartAct>, entries: seq<Entry>,
                     plan: Plan, before: seq<KPart>, d: Disk, i: nat)
    requires g.sectorBytes > 0 && i < |acts| == |entries| && DistinctStarts(entries) && acts[i].preserve
    requires Planned(g, infos, formats, acts, entries, |acts|) == Ok(plan) && entries[i].start in d.parts
    ensures exists info ::
      && Reported(infos, entries[i].start, info)
      && (FitsTable(g, plan, entries[i].start, acts[i].part.size) <==> FitsAsked(g, formats, acts[i], info))
    ensures ZeroingSpares(g, plan, before, d.parts, entries[i].start) <==>
      ZeroingMisses(g, acts, entries, before, d.parts, entries[i].start)
  {
    var o := entries[i].start;
    DecidedByFields(g, infos, formats, acts, entries, i);
    var info :| Reported(infos, o, info) && ResizedFor(g, formats, acts[i], info, plan.resizes[o]);
    FitsByFields(g, formats, acts[i], info, plan, o);
    ZeroingByActions(g, infos, formats, acts, entries, plan, before, d.parts, o);
  }

  lemma KeptAccounted(kind: TableKind, g: Geometry, infos: seq<PartInfo>, formats: seq<Format>, acts: seq<PartAct>,
                      before: seq<KPart>, after: seq<KPart>, d: Disk, plan: Plan, entries: seq<Entry>, i: nat)
    requires g.Valid() && g.sectorBytes > 0 && |acts| == |entries| && Layout(kind, g, acts) == Ok(entries)
    requires Planned(g, infos, formats, acts, entries, |acts|) == Ok(plan)
    requires KernelShows(g, entries, after) && Expected(g, plan, after)
    requires KeptHere(g, infos, formats, acts, entries, before, d, i)
    ensures SafeExactly(g, entries, plan, before, after, d, RunLog(g, plan, before, after), i, acts[i].part.size)
    ensures (Regular(kind, g, acts) || WipedApart(acts, entries, i)) && Apart(g, d.parts, entries[i].start) ==>
      SafeUnlessZeroed(g, infos, formats, acts, entries, before, d, RunLog(g, plan, before, after), i)
  {
    var o := entries[i].start;
    KeptHereScene(kind, g, infos, formats, acts, entries, plan, before, after, d, i);
    KeptDataExactly(g, entries, plan, before, after, d, i, d.fs[o], acts[i].part.size);
    if (Regular(kind, g, acts) || WipedApart(acts, entries, i)) && Apart(g, d.parts, o) {
      OnlyZeroingReaches(g, plan, before, d.parts, o);
      if Regular(kind, g, acts) {
        RegularApart(kind, g, acts, entries, i);
      }
      WipedApartSpares(g, infos, formats, acts, entries, plan, after, i);
      KeptByFields(g, infos, formats, acts, entries, plan, before, d, i);
    }
  }

  lemma ActionsAccounted(g: Geometry, infos: seq<PartInfo>, formats: seq<Format>, acts: seq<PartAct>,
                         entries: seq<Entry>, plan: Plan, before: seq<KPart>, after: seq<KPart>)
    requires g.sectorBytes > 0 && |acts| == |entries| && KernelShows(g, entries, after) && Expected(g, plan, after)
    requires Planned(g, infos, formats, acts, entries, |acts|) == Ok(plan)
    ensures var log := RunLog(g, plan, before, after);
      && (DistinctStarts(entries) ==>
            forall i :: 0 <= i < |acts| ==> DoneAsAsked(g, infos, formats, acts[i], entries[i].start, before, log))
      && (forall o :: (forall i :: 0 <= i < |entries| ==> entries[i].start != o) ==> OnlyCleared(g, o, before, log))
  {
    var log := RunLog(g, plan, before, after);
    forall i | DistinctStarts(entries) && 0 <= i < |acts|
      ensures DoneAsAsked(g, infos, formats, acts[i], entries[i].start, before, log)
    {
      DecidedByFields(g, infos, formats, acts, entries, i);
      ActionDone(g, infos, formats, acts[i], plan, entries[i].start, before, after);
    }
    PlannedKeys(g, infos, formats, acts, entries, |acts|);
    forall o | forall i :: 0 <= i < |entries| ==> entries[i].start != o ensures OnlyCleared(g, o, before, log) {
      OthersDone(g, plan, o, before, after);
    }
  }

  lemma RunAccounted(kind: TableKind, g: Geometry, infos: seq<PartInfo>, formats: seq<Format>, acts: seq<PartAct>,
                     before: seq<KPart>, after: seq<KPart>, d: Disk, plan: Plan, entries: seq<Entry>)
    requires g.Valid() && g.sectorBytes > 0 && |acts| == |entries| && Layout(kind, g, acts) == Ok(entries)
    requires Planned(g, infos, formats, acts, entries, |acts|) == Ok(plan)
    requires KernelShows(g, entries, after) && Expected(g, plan, after)
    ensures Accounted(kind, g, infos, formats, acts, before, after, d, plan, entries, RunLog(g, plan, before, after))
  {
    var log := RunLog(g, plan, before, after);
    ActionsAccounted(g, infos, formats, acts, entries, plan, before, after);
    forall i: nat | KeptHere(g, infos, formats, acts, entries, before, d, i)
      ensures SafeExactly(g, entries, plan, before, after, d, log, i, acts[i].part.size)
      ensures (Regular(kind, g, acts) || WipedApart(acts, entries, i)) && Apart(g, d.parts, entries[i].start) ==>
        SafeUnlessZeroed(g, infos, formats, acts, entries, before, d, log, i)
    {
      KeptAccounted(kind, g, infos, formats, acts, before, after, d, plan, entries, i);
    }
  }

  /** The handler from start to end: planning may fail, and then nothing has been touched; otherwise the run
      is accounted for. `kernel` stands for what the kernel shows once a table was applied. */
  method HandleDisk(kind: TableKind, sectorBytes: nat, infos: seq<PartInfo>, formats: seq<Format>, acts: seq<PartAct>,
                    before: seq<KPart>, kernel: seq<Entry> -> seq<KPart>, ghost d: Disk)
    returns (r: Result<seq<Event>, PlanError>)
    requires OneMibSectors(sectorBytes).Ok?
    requires forall es :: KernelShows(Geometry(sectorBytes, OneMibSectors(sectorBytes).value), es, kernel(es))
    ensures var g := Geometry(sectorBytes, OneMibSectors(sectorBytes).value);
      g.Valid() && (r.Ok? <==> Plannable(kind, g, infos, formats, acts))
        && (r.Ok? ==>
              Made(kind, g, infos, formats, acts) &&
              var entries := Layout(kind, g, acts).value;
              var plan := Planned(g, infos, formats, acts, entries, |acts|).value;
              Accounted(kind, g, infos, formats, acts, before, kernel(entries), d, plan, entries, r.value))
  {
    OneMibIsPow2(sectorBytes);
    var g := Geometry(sectorBytes, OneMibSectors(sectorBytes).value);
    MadeExactly(kind, g, infos, formats, acts);
    var made, entries := MakePlan(kind, g, infos, formats, acts);
    if made.Err? {
      r := Err(made.error);
    } else {
      var after := kernel(entries);
      LookupNeverFails(g, infos, formats, acts, entries, after);
      var log := RunPlan(g, made.value, before, after);
      RunAccounted(kind, g, infos, formats, acts, before, after, d, made.value, entries);
      r := Ok(log);
    }
  }
}
