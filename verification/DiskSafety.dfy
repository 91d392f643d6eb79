/** What every run of the version 2 disk handler guarantees for data that is to be kept. */
module DiskSafety {
  import opened Wrappers
  import opened Alignment
  import opened PartTables
  import opened DiskPlan
  import opened DiskActions
  import opened DiskRun
  import opened DiskState
  import DosTable
  import TableEntries

  /** The kernel shows the partitions of the table, in any order, and no others. */
  ghost predicate KernelShows(g: Geometry, entries: seq<Entry>, ks: seq<KPart>)
    requires g.sectorBytes > 0
  {
    && (forall k :: 0 <= k < |ks| ==> exists i :: 0 <= i < |entries| && entries[i].start == g.Sectors(ks[k].offset))
    && (forall i :: 0 <= i < |entries| ==> Shown(g, ks, |ks|, entries[i].start))
  }

  /** After the table was applied, looking a shown partition up in `wipes` never fails. */
  lemma LookupNeverFails(g: Geometry, infos: seq<PartInfo>, formats: seq<Format>, acts: seq<PartAct>,
                         entries: seq<Entry>, after: seq<KPart>)
    requires g.sectorBytes > 0 && |acts| == |entries| && KernelShows(g, entries, after)
    requires Planned(g, infos, formats, acts, entries, |acts|).Ok?
    ensures Expected(g, Planned(g, infos, formats, acts, entries, |acts|).value, after)
  {
    PlannedKeys(g, infos, formats, acts, entries, |acts|);
  }

  // ----- Which events a run consists of -----

  lemma {:induction false} ShrinkEvents(g: Geometry, plan: Plan, ks: seq<KPart>, n: nat, ev: Event)
    requires g.sectorBytes > 0 && n <= |ks|
    ensures ev in Shrinks(g, plan, ks, n) ==> ev.Resized? && Shrinking(plan, ev.start)
  {
    if n > 0 {
      ShrinkEvents(g, plan, ks, n - 1, ev);
    }
  }

  lemma {:induction false} PreWipeEvents(g: Geometry, plan: Plan, ks: seq<KPart>, n: nat, ev: Event)
    requires g.sectorBytes > 0 && n <= |ks|
    ensures ev in PreWipes(g, plan, ks, n) <==> exists k :: 0 <= k < n && ev in PreWipe(g, plan, ks[k])
  {
    if n > 0 {
      PreWipeEvents(g, plan, ks, n - 1, ev);
      if ev in PreWipes(g, plan, ks, n) && ev !in PreWipes(g, plan, ks, n - 1) {
        assert ev in PreWipe(g, plan, ks[n - 1]);
      }
    }
  }

  lemma {:induction false} FinishEvents(g: Geometry, plan: Plan, after: seq<KPart>, n: nat, ev: Event)
    requires g.sectorBytes > 0 && Expected(g, plan, after) && n <= |after|
    ensures ev in Finishes(g, plan, after, n) <==>
      exists k :: 0 <= k < n && ev in Finish(plan, g.Sectors(after[k].offset))
  {
    if n > 0 {
      FinishEvents(g, plan, after, n - 1, ev);
      if ev in Finishes(g, plan, after, n) && ev !in Finishes(g, plan, after, n - 1) {
        assert ev in Finish(plan, g.Sectors(after[n - 1].offset));
      }
    }
  }

  /** Before the table: exactly the partitions that go are wiped, and exactly the kept ones with a wipe are zeroed. */
  lemma WipedBefore(g: Geometry, plan: Plan, before: seq<KPart>, o: nat, mode: string, off: nat)
    requires g.sectorBytes > 0
    ensures Wiped(o, mode) in Before(g, plan, before) <==>
      Shown(g, before, |before|, o) && o !in plan.preserved && mode == "superblock"
    ensures Zeroed(off) in Before(g, plan, before) <==>
      exists k :: 0 <= k < |before| && before[k].offset == off && PreWipe(g, plan, before[k]) == [Zeroed(off)]
  {
    ShrinkEvents(g, plan, before, |before|, Wiped(o, mode));
    ShrinkEvents(g, plan, before, |before|, Zeroed(off));
    PreWipeEvents(g, plan, before, |before|, Wiped(o, mode));
    PreWipeEvents(g, plan, before, |before|, Zeroed(off));
    if Shown(g, before, |before|, o) && o !in plan.preserved && mode == "superblock" {
      var k :| 0 <= k < |before| && g.Sectors(before[k].offset) == o;
      assert PreWipe(g, plan, before[k]) == [Wiped(o, "superblock")];
    }
  }

  /** After the table: exactly the partitions with a wipe are wiped, in their own mode. */
  lemma WipedAfter(g: Geometry, plan: Plan, after: seq<KPart>, o: nat, mode: string)
    requires g.sectorBytes > 0 && Expected(g, plan, after)
    ensures Wiped(o, mode) in Finishes(g, plan, after, |after|) <==>
      Shown(g, after, |after|, o) && o in plan.wipes && plan.wipes[o] == Some(mode)
  {
    FinishEvents(g, plan, after, |after|, Wiped(o, mode));
    if Shown(g, after, |after|, o) && o in plan.wipes && plan.wipes[o] == Some(mode) {
      var k :| 0 <= k < |after| && g.Sectors(after[k].offset) == o;
      assert FinalWipe(plan, o) == [Wiped(o, mode)];
      assert Wiped(o, mode) in Finish(plan, g.Sectors(after[k].offset));
    }
  }

  /** A preserved partition without a wipe is never the target of a wipe or of a zeroing. */
  lemma NeverTargeted(g: Geometry, plan: Plan, before: seq<KPart>, after: seq<KPart>, o: nat, ev: Event)
    requires g.sectorBytes > 0 && Expected(g, plan, after)
    requires o in plan.preserved && (o in plan.wipes ==> plan.wipes[o] == None)
    requires ev in RunLog(g, plan, before, after)
    ensures ev.Wiped? ==> ev.start != o
    ensures ev.Zeroed? ==> g.Sectors(ev.offset) != o
  {
    if ev.Wiped? {
      WipedBefore(g, plan, before, ev.start, ev.mode, 0);
      WipedAfter(g, plan, after, ev.start, ev.mode);
    }
    if ev.Zeroed? {
      WipedBefore(g, plan, before, 0, "", ev.offset);
      FinishEvents(g, plan, after, |after|, ev);
    }
  }

  ghost predicate Precedes(log: seq<Event>, a: Event, b: Event) {
    exists i, j :: 0 <= i < j < |log| && log[i] == a && log[j] == b
  }

  /** Every partition that goes is wiped before the table is applied. */
  lemma DroppedAreWiped(g: Geometry, plan: Plan, before: seq<KPart>, after: seq<KPart>, k: nat)
    requires g.sectorBytes > 0 && Expected(g, plan, after)
    requires k < |before| && g.Sectors(before[k].offset) !in plan.preserved
    ensures Precedes(RunLog(g, plan, before, after), Wiped(g.Sectors(before[k].offset), "superblock"), Applied)
  {
    var o := g.Sectors(before[k].offset);
    var log, head := RunLog(g, plan, before, after), Before(g, plan, before);
    WipedBefore(g, plan, before, o, "superblock", 0);
    assert Shown(g, before, |before|, o);
    var i :| 0 <= i < |head| && head[i] == Wiped(o, "superblock");
    assert log[i] == head[i] && log[|head|] == Applied;
  }

  // ----- The file system on a kept partition -----

  /** The partition of entry `i`, with a file system of `was` bytes; `size` bytes are asked for. */
  ghost predicate Scene(g: Geometry, entries: seq<Entry>, plan: Plan, before: seq<KPart>, after: seq<KPart>,
                        d: Disk, i: nat, was: nat, size: nat)
  {
    && g.sectorBytes > 0 && i < |entries| && DistinctStarts(entries) && Expected(g, plan, after)
    && var o := entries[i].start;
       && entries[i].size == size / g.sectorBytes && Fits(d, o) && d.fs[o] == was
       && d.parts[o] % g.sectorBytes == 0 && Guarded(plan, o, d.parts[o], size)
       && Shown(g, before, |before|, o) && Shown(g, after, |after|, o)
  }

  /** Where a resize was planned, the resized file system fits the whole sectors the table gives it. */
  ghost predicate FitsTable(g: Geometry, plan: Plan, o: nat, size: nat)
    requires g.sectorBytes > 0
  {
    o in plan.resizes && plan.resizes[o].Some? ==> Target(plan, o) <= size / g.sectorBytes * g.sectorBytes
  }

  /** No wipe or zeroing before the table reaches into the partition as it was on the disk. */
  ghost predicate SparedBefore(g: Geometry, plan: Plan, before: seq<KPart>, parts: map<nat, nat>, o: nat)
    requires g.sectorBytes > 0
  {
    Spared(g, parts, PreWipes(g, plan, before, |before|), o)
  }

  /** No wipe after the table reaches into the partition as the table has it. */
  ghost predicate SparedAfter(g: Geometry, entries: seq<Entry>, plan: Plan, after: seq<KPart>, o: nat)
    requires g.sectorBytes > 0 && Expected(g, plan, after)
  {
    Spared(g, TableParts(g, entries), Finishes(g, plan, after, |after|), o)
  }

  lemma WholeSectors(now: nat, size: nat, sector: nat)
    requires sector > 0 && now % sector == 0 && now <= size
    ensures now <= size / sector * sector <= size
  {
    var q, p := size / sector, now / sector;
    assert now == p * sector && size == q * sector + size % sector;
    assert (q + 1) * sector == q * sector + sector;
    if q < p {
      ProductMonotone(q + 1, p, sector);
    } else {
      ProductMonotone(p, q, sector);
    }
  }

  /** Up to the table a spared file system is shrunk if that was planned, and else left alone. */
  lemma BeforeTable(g: Geometry, entries: seq<Entry>, plan: Plan, before: seq<KPart>, after: seq<KPart>,
                    d: Disk, i: nat, was: nat, size: nat)
    requires Scene(g, entries, plan, before, after, d, i, was, size)
    requires SparedBefore(g, plan, before, d.parts, entries[i].start)
    ensures AlwaysFits(g, entries, d, Before(g, plan, before), entries[i].start)
    ensures Waiting(AfterAll(g, entries, d, Before(g, plan, before)), d.parts, plan, entries[i].start, was, true)
  {
    var o, n := entries[i].start, |before|;
    var shrinks, wipes := Shrinks(g, plan, before, n), PreWipes(g, plan, before, n);
    ShrinkPhase(g, entries, plan, before, n, d, o, was, size);
    PreWipesOnlyWipe(g, plan, before, n);
    SparedFits(g, entries, AfterAll(g, entries, d, shrinks), wipes, o);
    AlwaysFitsConcat(g, entries, d, shrinks, wipes, o);
    AfterConcat(g, entries, d, shrinks, wipes);
  }

  /** The state when the table has just been applied. */
  lemma AppliedState(g: Geometry, entries: seq<Entry>, plan: Plan, before: seq<KPart>, after: seq<KPart>,
                     d: Disk, i: nat, was: nat, size: nat)
    requires Scene(g, entries, plan, before, after, d, i, was, size)
    requires SparedBefore(g, plan, before, d.parts, entries[i].start)
    ensures var o := entries[i].start; var d2 := AfterAll(g, entries, d, Before(g, plan, before) + [Applied]);
      && Settled(d2, TableParts(g, entries), plan, o, was, false) && d2.parts[o] == size / g.sectorBytes * g.sectorBytes
      && (Shrinking(plan, o) || was <= d2.parts[o])
      && (Fits(d2, o) ==> AlwaysFits(g, entries, d, Before(g, plan, before) + [Applied], o))
  {
    var o := entries[i].start;
    BeforeTable(g, entries, plan, before, after, d, i, was, size);
    OneEvent(g, entries, d, Before(g, plan, before), Applied, o);
    TablePartsAt(g, entries, i);
    if !Shrinking(plan, o) {
      WholeSectors(d.parts[o], size, g.sectorBytes);
    }
  }

  /** At no step of the run is the kept file system lost or larger than its partition. */
  lemma RunKeepsData(g: Geometry, entries: seq<Entry>, plan: Plan, before: seq<KPart>, after: seq<KPart>,
                     d: Disk, i: nat, was: nat, size: nat)
    requires Scene(g, entries, plan, before, after, d, i, was, size)
    requires SparedBefore(g, plan, before, d.parts, entries[i].start)
    requires SparedAfter(g, entries, plan, after, entries[i].start) && FitsTable(g, plan, entries[i].start, size)
    ensures AlwaysFits(g, entries, d, RunLog(g, plan, before, after), entries[i].start)
    ensures Settled(AfterAll(g, entries, d, RunLog(g, plan, before, after)), TableParts(g, entries), plan,
                    entries[i].start, was, true)
  {
    var o := entries[i].start;
    var head, tail := Before(g, plan, before) + [Applied], Finishes(g, plan, after, |after|);
    AppliedState(g, entries, plan, before, after, d, i, was, size);
    FinishPhase(g, entries, plan, after, |after|, AfterAll(g, entries, d, head), o, was);
    AlwaysFitsConcat(g, entries, d, head, tail, o);
    AfterConcat(g, entries, d, head, tail);
  }

  /** A run during which the file system is gone, or too large, at the end of a part is not safe. */
  lemma FailsAt(g: Geometry, entries: seq<Entry>, d: Disk, done: seq<Event>, rest: seq<Event>, o: nat)
    requires !Fits(AfterAll(g, entries, d, done), o)
    ensures !AlwaysFits(g, entries, d, done + rest, o)
  {
    assert (done + rest)[..|done|] == done;
  }

  /** If something before the table reaches in, the file system is gone before the table is applied. */
  lemma SpillLosesData(g: Geometry, entries: seq<Entry>, plan: Plan, before: seq<KPart>, after: seq<KPart>, d: Disk,
                       o: nat)
    requires g.sectorBytes > 0 && Expected(g, plan, after) && !SparedBefore(g, plan, before, d.parts, o)
    ensures !AlwaysFits(g, entries, d, RunLog(g, plan, before, after), o)
  {
    var head := Before(g, plan, before);
    ShrinksOnlyResize(g, plan, before, |before|);
    PreWipesOnlyWipe(g, plan, before, |before|);
    SparedConcat(g, d.parts, Shrinks(g, plan, before, |before|), PreWipes(g, plan, before, |before|), o);
    Survival(g, entries, d, head, o);
    FailsAt(g, entries, d, head, [Applied] + Finishes(g, plan, after, |after|), o);
    assert RunLog(g, plan, before, after) == head + ([Applied] + Finishes(g, plan, after, |after|));
  }

  /** If a wipe after the table reaches in, the file system is gone at the end. */
  lemma LateWipeLosesData(g: Geometry, entries: seq<Entry>, plan: Plan, before: seq<KPart>, after: seq<KPart>, d: Disk,
                          o: nat)
    requires g.sectorBytes > 0 && Expected(g, plan, after) && !SparedAfter(g, entries, plan, after, o)
    ensures !AlwaysFits(g, entries, d, RunLog(g, plan, before, after), o)
  {
    var head, tail := Before(g, plan, before) + [Applied], Finishes(g, plan, after, |after|);
    OneEvent(g, entries, d, Before(g, plan, before), Applied, o);
    FinishesNeverApply(g, plan, after, |after|);
    Survival(g, entries, AfterAll(g, entries, d, head), tail, o);
    AfterConcat(g, entries, d, head, tail);
    FailsAt(g, entries, d, head + tail, [], o);
    assert RunLog(g, plan, before, after) == head + tail + [];
  }

  /** If the resized file system does not fit whole sectors, it outgrows its partition: on applying the table
      when it was shrunk, at the end when it was grown. */
  lemma MisfitOutgrows(g: Geometry, entries: seq<Entry>, plan: Plan, before: seq<KPart>, after: seq<KPart>,
                       d: Disk, i: nat, was: nat, size: nat)
    requires Scene(g, entries, plan, before, after, d, i, was, size)
    requires SparedBefore(g, plan, before, d.parts, entries[i].start)
    requires SparedAfter(g, entries, plan, after, entries[i].start) && !FitsTable(g, plan, entries[i].start, size)
    ensures !AlwaysFits(g, entries, d, RunLog(g, plan, before, after), entries[i].start)
  {
    var o := entries[i].start;
    var head, tail := Before(g, plan, before) + [Applied], Finishes(g, plan, after, |after|);
    AppliedState(g, entries, plan, before, after, d, i, was, size);
    if Shrinking(plan, o) {
      FailsAt(g, entries, d, head, tail, o);
    } else {
      FinishPhase(g, entries, plan, after, |after|, AfterAll(g, entries, d, head), o, was);
      AfterConcat(g, entries, d, head, tail);
      FailsAt(g, entries, d, head + tail, [], o);
      assert RunLog(g, plan, before, after) == head + tail + [];
    }
  }

  /** Exactly when kept data is safe at every step: nothing reaches into its partition, neither before the table
      nor after it, and a planned resize fits whole sectors. */
  lemma KeptDataExactly(g: Geometry, entries: seq<Entry>, plan: Plan, before: seq<KPart>, after: seq<KPart>,
                        d: Disk, i: nat, was: nat, size: nat)
    requires Scene(g, entries, plan, before, after, d, i, was, size)
    ensures AlwaysFits(g, entries, d, RunLog(g, plan, before, after), entries[i].start) <==>
      && SparedBefore(g, plan, before, d.parts, entries[i].start)
      && SparedAfter(g, entries, plan, after, entries[i].start)
      && FitsTable(g, plan, entries[i].start, size)
  {
    var o := entries[i].start;
    if !SparedBefore(g, plan, before, d.parts, o) {
      SpillLosesData(g, entries, plan, before, after, d, o);
    } else if !SparedAfter(g, entries, plan, after, o) {
      LateWipeLosesData(g, entries, plan, before, after, d, o);
    } else if FitsTable(g, plan, o, size) {
      RunKeepsData(g, entries, plan, before, after, d, i, was, size);
    } else {
      MisfitOutgrows(g, entries, plan, before, after, d, i, was, size);
    }
  }

  /** A size that is a multiple of the sector size always fits. */
  lemma WholeSectorsFit(g: Geometry, plan: Plan, o: nat, now: nat, size: nat)
    requires g.sectorBytes > 0 && Guarded(plan, o, now, size) && size % g.sectorBytes == 0
    ensures FitsTable(g, plan, o, size)
  {
    if plan.resizes[o].Some? {
      TargetAtMost(plan, o);
    }
  }

  // ----- Partitions that do not overlap -----

  /** No other partition overlaps the one at `o`. */
  ghost predicate Apart(g: Geometry, parts: map<nat, nat>, o: nat) {
    && o in parts
    && forall p :: p in parts && p != o ==> !Overlap(p * g.sectorBytes, parts[p], o * g.sectorBytes, parts[o])
  }

  /** No zeroing of another partition reaches in. */
  ghost predicate ZeroingSpares(g: Geometry, plan: Plan, before: seq<KPart>, parts: map<nat, nat>, o: nat)
    requires g.sectorBytes > 0 && o in parts
  {
    forall k :: 0 <= k < |before| && PreWipe(g, plan, before[k]) == [Zeroed(before[k].offset)] ==>
      !Overlap(before[k].offset, ONE_MIB_BYTES, o * g.sectorBytes, parts[o])
  }

  /** On a disk without overlaps only zeroing can reach into a preserved partition. */
  lemma OnlyZeroingReaches(g: Geometry, plan: Plan, before: seq<KPart>, parts: map<nat, nat>, o: nat)
    requires g.sectorBytes > 0 && o in plan.preserved && Apart(g, parts, o)
    ensures SparedBefore(g, plan, before, parts, o) <==> ZeroingSpares(g, plan, before, parts, o)
  {
    var wipes := PreWipes(g, plan, before, |before|);
    if ZeroingSpares(g, plan, before, parts, o) {
      forall ev | ev in wipes ensures !Hits(g, parts, ev, o) {
        PreWipeEvents(g, plan, before, |before|, ev);
      }
    }
    if SparedBefore(g, plan, before, parts, o) {
      forall k | 0 <= k < |before| && PreWipe(g, plan, before[k]) == [Zeroed(before[k].offset)]
        ensures !Overlap(before[k].offset, ONE_MIB_BYTES, o * g.sectorBytes, parts[o])
      {
        PreWipeEvents(g, plan, before, |before|, Zeroed(before[k].offset));
        assert Zeroed(before[k].offset) in wipes;
        assert !Hits(g, parts, Zeroed(before[k].offset), o);
      }
    }
  }

  /** Entries that are disjoint in sectors are disjoint in bytes. */
  lemma DisjointBytes(a: Entry, b: Entry, sector: nat)
    requires Disjoint(a, b)
    ensures !Overlap(a.start * sector, a.size * sector, b.start * sector, b.size * sector)
  {
    assert a.start * sector + a.size * sector == (a.start + a.size) * sector;
    assert b.start * sector + b.size * sector == (b.start + b.size) * sector;
    if a.start + a.size <= b.start {
      ProductMonotone(a.start + a.size, b.start, sector);
    } else {
      ProductMonotone(b.start + b.size, a.start, sector);
    }
  }

  /** Every entry that gets a wipe in the end is disjoint from entry `i`. */
  ghost predicate WipedApart(acts: seq<PartAct>, entries: seq<Entry>, i: nat)
    requires i < |entries| == |acts|
  {
    forall j :: 0 <= j < |acts| && j != i && !NotWiped(acts[j]) ==> Disjoint(entries[j], entries[i])
  }

  /** If so, no wipe after the table reaches into it. */
  lemma WipedApartSpares(g: Geometry, infos: seq<PartInfo>, formats: seq<Format>, acts: seq<PartAct>,
                         entries: seq<Entry>, plan: Plan, after: seq<KPart>, i: nat)
    requires g.sectorBytes > 0 && i < |acts| == |entries| && DistinctStarts(entries) && Expected(g, plan, after)
    requires Planned(g, infos, formats, acts, entries, |acts|) == Ok(plan) && NotWiped(acts[i])
    requires WipedApart(acts, entries, i)
    ensures SparedAfter(g, entries, plan, after, entries[i].start)
  {
    var o, parts := entries[i].start, TableParts(g, entries);
    TablePartsAt(g, entries, i);
    PlannedAt(g, infos, formats, acts, entries, |acts|, i);
    WipesAre(acts[i]);
    forall ev | ev in Finishes(g, plan, after, |after|) ensures !Hits(g, parts, ev, o) {
      FinishEvents(g, plan, after, |after|, ev);
      if ev.Wiped? {
        WipedAfter(g, plan, after, ev.start, ev.mode);
        PlannedKeys(g, infos, formats, acts, entries, |acts|);
        var j :| 0 <= j < |acts| && entries[j].start == ev.start;
        PlannedAt(g, infos, formats, acts, entries, |acts|, j);
        WipesAre(acts[j]);
        TablePartsAt(g, entries, j);
        DisjointBytes(entries[j], entries[i], g.sectorBytes);
      }
    }
  }

  /** The layout is one the table classes are made for: no offsets and, on a DOS table, one extended partition,
      numbered as a primary, that has room for the logical ones. */
  ghost predicate Regular(kind: TableKind, g: Geometry, acts: seq<PartAct>)
    requires g.sectorBytes > 0 && g.mib > 0
  {
    && OffsetFree(Parts(acts))
    && (kind == Dos ==>
          && DosTable.OneExtended(Parts(acts))
          && match DosTable.DosLayout(g, Parts(acts)) {
               case Err(_) => true
               case Ok(t) =>
                 t.extended.Some? ==> DosTable.Reach(g.mib, DosTable.Logicals(t.entries)) <= t.extended.value.size
             })
  }

  lemma DosExtendedAt(g: Geometry, actions: seq<Action>, i: nat)
    requires g.Valid() && g.sectorBytes > 0 && i < |actions| && DosTable.DosLayout(g, actions).Ok?
    ensures |DosTable.DosLayout(g, actions).value.entries| == |actions|
    ensures DosTable.DosLayout(g, actions).value.entries[i].extended == DosTable.IsExtended(actions[i])
    ensures DosTable.DosLayout(g, actions).value.entries[i].size == g.Sectors(actions[i].size)
  {
    var _, _ := TableEntries.DosEntriesFollow(g, actions, i);
  }

  /** In such a layout the partitions other than the extended one are disjoint. */
  lemma RegularApart(kind: TableKind, g: Geometry, acts: seq<PartAct>, entries: seq<Entry>, i: nat)
    requires g.Valid() && Layout(kind, g, acts) == Ok(entries) && |entries| == |acts| && DistinctStarts(entries)
    requires Regular(kind, g, acts) && i < |acts| && !DosTable.IsExtended(acts[i].part)
    ensures WipedApart(acts, entries, i)
  {
    var actions := Parts(acts);
    match kind {
      case Gpt =>
        GptDisjoint(g, actions);
        assert entries == GptLayout(g, actions);
        forall j | 0 <= j < |acts| && j != i ensures Disjoint(entries[j], entries[i]) {
          assert if j < i then entries[j].start + entries[j].size <= entries[i].start
                 else entries[i].start + entries[i].size <= entries[j].start;
        }
      case Dos =>
        var t := DosTable.DosLayout(g, actions).value;
        if t.extended.Some? {
          DosTable.LogicalsInside(g, actions);
        }
        DosExtendedAt(g, actions, i);
        forall j | 0 <= j < |acts| && j != i && !NotWiped(acts[j]) ensures Disjoint(entries[j], entries[i]) {
          DosExtendedAt(g, actions, j);
          assert entries[j] in t.entries && entries[i] in t.entries && entries[j] != entries[i];
          DosTable.DosDisjoint(g, actions, entries[j], entries[i]);
        }
    }
  }

  // ----- The whole handler -----

  lemma {:induction false} GptSizes(g: Geometry, actions: seq<Action>, i: nat)
    requires g.Valid() && i < |actions|
    ensures GptLayout(g, actions)[i].size == g.Sectors(actions[i].size)
  {
    if i < |actions| - 1 {
      GptSizes(g, actions[..|actions| - 1], i);
    }
  }

  /** The action `i` asks to keep data that the disk `d` really holds. */
  ghost predicate KeptHere(g: Geometry, infos: seq<PartInfo>, formats: seq<Format>, acts: seq<PartAct>,
                           entries: seq<Entry>, before: seq<KPart>, d: Disk, i: nat)
    requires g.sectorBytes > 0
  {
    && i < |acts| == |entries| && DistinctStarts(entries)
    && FindInfo(infos, entries[i].start).Some? && Kept(acts[i], FindInfo(infos, entries[i].start).value, formats)
    && Fits(d, entries[i].start)
    && d.parts[entries[i].start] == FindInfo(infos, entries[i].start).value.size * g.sectorBytes
    && Shown(g, before, |before|, entries[i].start)
  }

  lemma KeptHereScene(kind: TableKind, g: Geometry, infos: seq<PartInfo>, formats: seq<Format>, acts: seq<PartAct>,
                      entries: seq<Entry>, plan: Plan, before: seq<KPart>, after: seq<KPart>, d: Disk, i: nat)
    requires g.Valid() && g.sectorBytes > 0 && |acts| == |entries| && Layout(kind, g, acts) == Ok(entries)
    requires Planned(g, infos, formats, acts, entries, |acts|) == Ok(plan)
    requires KeptHere(g, infos, formats, acts, entries, before, d, i) && KernelShows(g, entries, after)
    ensures Scene(g, entries, plan, before, after, d, i, d.fs[entries[i].start], acts[i].part.size)
  {
    LookupNeverFails(g, infos, formats, acts, entries, after);
    KeptIsGuarded(g, infos, formats, acts, entries, i);
    match kind {
      case Gpt => GptSizes(g, Parts(acts), i);
      case Dos => DosExtendedAt(g, Parts(acts), i);
    }
    var info := FindInfo(infos, entries[i].start).value;
    DivModUnique(info.size * g.sectorBytes, g.sectorBytes, info.size, 0);
  }
}
