/** Two runs of the version 2 disk handler that lose data on a partition that is to be kept. */
module DiskCases {
  import opened Wrappers
  import opened PartTables
  import opened DiskPlan
  import opened DiskRun
  import opened DiskState
  import opened DiskSafety

  /** A kept file system that does not survive a run of the handler on these inputs. */
  ghost predicate Loses(g: Geometry, infos: seq<PartInfo>, acts: seq<PartAct>, entries: seq<Entry>, plan: Plan,
                        ks: seq<KPart>, d: Disk, i: nat)
    requires g.sectorBytes > 0 && g.mib > 0
  {
    && Layout(Gpt, g, acts) == Ok(entries) && |entries| == |acts|
    && Planned(g, infos, [], acts, entries, |acts|) == Ok(plan)
    && KeptHere(g, infos, [], acts, entries, ks, d, i) && KernelShows(g, entries, ks) && Expected(g, plan, ks)
    && Apart(g, d.parts, entries[i].start) && WipedApart(acts, entries, i)
    && !AlwaysFits(g, entries, d, RunLog(g, plan, ks, ks), entries[i].start)
  }

  // ----- Zeroing that spills -----

  const SECTORS_512 := Geometry(512, 2048)

  /** 512 KiB at one MiB, preserved and to be wiped; behind it one MiB, preserved. */
  const SPILL_ACTS := [
    PartAct("a", Action(None, None, Some(1048576), 524288), true, false, Some("superblock")),
    PartAct("b", Action(None, None, Some(1572864), 1048576), true, false, None)]

  const SPILL_INFOS := [PartInfo(2048, 1024, ""), PartInfo(3072, 2048, "ext4")]

  const SPILL_ENTRIES := [Entry(1, 2048, 1024, false), Entry(2, 3072, 2048, false)]

  const SPILL_PLAN := Plan(map[2048 := Some("superblock"), 3072 := None], map[2048 := None, 3072 := None], {2048, 3072})

  const SPILL_SHOWN := [KPart(1048576), KPart(1572864)]

  const SPILL_DISK := Disk(map[2048 := 524288, 3072 := 1048576], map[3072 := 1048576])

  lemma GptOne(g: Geometry, init: seq<Action>, a: Action)
    requires g.sectorBytes > 0 && g.mib > 0
    ensures GptLayout(g, init + [a]) == GptLayout(g, init) + [GptEntry(g, GptLayout(g, init), a)]
  {
    assert (init + [a])[..|init|] == init;
  }

  lemma GptTwo(g: Geometry, a: Action, b: Action, e: Entry, f: Entry)
    requires g.sectorBytes > 0 && g.mib > 0 && GptEntry(g, [], a) == e && GptEntry(g, [e], b) == f
    ensures GptLayout(g, [a]) == [e] && GptLayout(g, [a, b]) == [e, f]
  {
    GptOne(g, [], a);
    assert [a] == [] + [a];
    GptOne(g, [a], b);
    assert [a, b] == [a] + [b];
  }

  lemma SpillLayout()
    ensures Layout(Gpt, SECTORS_512, SPILL_ACTS) == Ok(SPILL_ENTRIES)
  {
    var a, b := SPILL_ACTS[0].part, SPILL_ACTS[1].part;
    GptTwo(SECTORS_512, a, b, Entry(1, 2048, 1024, false), Entry(2, 3072, 2048, false));
    assert Parts(SPILL_ACTS) == [a, b];
  }

  lemma SpillDecided()
    ensures FindInfo(SPILL_INFOS, 2048) == Some(SPILL_INFOS[0]) && FindInfo(SPILL_INFOS, 3072) == Some(SPILL_INFOS[1])
    ensures Verify(SECTORS_512, SPILL_ACTS[0], SPILL_INFOS[0]) == None
    ensures Verify(SECTORS_512, SPILL_ACTS[1], SPILL_INFOS[1]) == None
  {
    assert SPILL_INFOS[1..][0] == SPILL_INFOS[1];
  }

  lemma SpillPlanned()
    ensures Planned(SECTORS_512, SPILL_INFOS, [], SPILL_ACTS, SPILL_ENTRIES, 2) == Ok(SPILL_PLAN)
  {
    var g, first := SECTORS_512, Plan(map[2048 := Some("superblock")], map[2048 := None], {2048});
    SpillDecided();
    assert EMPTY_PLAN.wipes[2048 := Some("superblock")] == first.wipes;
    assert EMPTY_PLAN.resizes[2048 := None] == first.resizes && EMPTY_PLAN.preserved + {2048} == first.preserved;
    assert PlanStep(g, SPILL_INFOS, [], EMPTY_PLAN, SPILL_ACTS[0], SPILL_ENTRIES[0]) == Ok(first);
    assert first.wipes[3072 := None] == SPILL_PLAN.wipes && first.preserved + {3072} == SPILL_PLAN.preserved;
    assert first.resizes[3072 := None] == SPILL_PLAN.resizes;
    assert PlanStep(g, SPILL_INFOS, [], first, SPILL_ACTS[1], SPILL_ENTRIES[1]) == Ok(SPILL_PLAN);
    assert Planned(g, SPILL_INFOS, [], SPILL_ACTS, SPILL_ENTRIES, 0) == Ok(EMPTY_PLAN);
    assert Planned(g, SPILL_INFOS, [], SPILL_ACTS, SPILL_ENTRIES, 1) == Ok(first);
  }

  lemma SpillKept()
    ensures KeptHere(SECTORS_512, SPILL_INFOS, [], SPILL_ACTS, SPILL_ENTRIES, SPILL_SHOWN, SPILL_DISK, 1)
    ensures KernelShows(SECTORS_512, SPILL_ENTRIES, SPILL_SHOWN) && Expected(SECTORS_512, SPILL_PLAN, SPILL_SHOWN)
  {
    var g, ks := SECTORS_512, SPILL_SHOWN;
    SpillDecided();
    assert g.Sectors(ks[0].offset) == 2048 && g.Sectors(ks[1].offset) == 3072;
    assert Shown(g, ks, |ks|, 2048) && Shown(g, ks, |ks|, 3072);
    assert SPILL_ENTRIES[0].start == 2048 && SPILL_ENTRIES[1].start == 3072;
  }

  lemma SpillReaches()
    ensures !SparedBefore(SECTORS_512, SPILL_PLAN, SPILL_SHOWN, SPILL_DISK.parts, 3072)
  {
    var g, ks := SECTORS_512, SPILL_SHOWN;
    OnlyZeroingReaches(g, SPILL_PLAN, ks, SPILL_DISK.parts, 3072);
    assert g.Sectors(ks[0].offset) == 2048;
    assert PreWipe(g, SPILL_PLAN, ks[0]) == [Zeroed(ks[0].offset)];
    assert !ZeroingSpares(g, SPILL_PLAN, ks, SPILL_DISK.parts, 3072);
  }

  /** Zeroing a whole MiB at the start of the first partition destroys the file system on the second. */
  lemma ZeroingCanSpill()
    ensures Loses(SECTORS_512, SPILL_INFOS, SPILL_ACTS, SPILL_ENTRIES, SPILL_PLAN, SPILL_SHOWN, SPILL_DISK, 1)
  {
    SpillLayout();
    SpillPlanned();
    SpillKept();
    SpillReaches();
    SpillLosesData(SECTORS_512, SPILL_ENTRIES, SPILL_PLAN, SPILL_SHOWN, SPILL_SHOWN, SPILL_DISK, 3072);
  }

  // ----- A size that is not whole sectors -----

  const SECTORS_4096 := Geometry(4096, 256)

  /** An ntfs of 20 GiB is to shrink to ten billion bytes, a quarter of a sector more than the table keeps. */
  const MISFIT_ACTS := [PartAct("a", Action(None, None, None, 10000000000), true, true, None)]

  const MISFIT_INFOS := [PartInfo(256, 5242880, "ntfs")]

  const MISFIT_ENTRIES := [Entry(1, 256, 2441406, false)]

  const MISFIT_PLAN := Plan(map[256 := None], map[256 := Some(Resize("ntfs", 10000000000, Down))], {256})

  const MISFIT_SHOWN := [KPart(1048576)]

  const MISFIT_DISK := Disk(map[256 := 21474836480], map[256 := 21474836480])

  lemma MisfitLayout()
    ensures Layout(Gpt, SECTORS_4096, MISFIT_ACTS) == Ok(MISFIT_ENTRIES)
  {
    var a, e := MISFIT_ACTS[0].part, Entry(1, 256, 2441406, false);
    GptTwo(SECTORS_4096, a, a, e, GptEntry(SECTORS_4096, [e], a));
    assert Parts(MISFIT_ACTS) == [a];
  }

  lemma MisfitPlanned()
    ensures Planned(SECTORS_4096, MISFIT_INFOS, [], MISFIT_ACTS, MISFIT_ENTRIES, 1) == Ok(MISFIT_PLAN)
  {
    var g := SECTORS_4096;
    assert FindInfo(MISFIT_INFOS, 256) == Some(MISFIT_INFOS[0]) && FormatsOf([], "a") == [];
    assert PrepareResize(g, [], MISFIT_ACTS[0], MISFIT_INFOS[0]) == Ok(MISFIT_PLAN.resizes[256]);
    assert EMPTY_PLAN.wipes[256 := None] == MISFIT_PLAN.wipes && EMPTY_PLAN.preserved + {256} == MISFIT_PLAN.preserved;
    assert EMPTY_PLAN.resizes[256 := MISFIT_PLAN.resizes[256]] == MISFIT_PLAN.resizes;
    assert PlanStep(g, MISFIT_INFOS, [], EMPTY_PLAN, MISFIT_ACTS[0], MISFIT_ENTRIES[0]) == Ok(MISFIT_PLAN);
    assert Planned(g, MISFIT_INFOS, [], MISFIT_ACTS, MISFIT_ENTRIES, 0) == Ok(EMPTY_PLAN);
  }

  lemma MisfitKept()
    ensures KeptHere(SECTORS_4096, MISFIT_INFOS, [], MISFIT_ACTS, MISFIT_ENTRIES, MISFIT_SHOWN, MISFIT_DISK, 0)
    ensures KernelShows(SECTORS_4096, MISFIT_ENTRIES, MISFIT_SHOWN)
  {
    assert SECTORS_4096.Sectors(MISFIT_SHOWN[0].offset) == 256;
    assert Shown(SECTORS_4096, MISFIT_SHOWN, |MISFIT_SHOWN|, 256);
  }

  lemma MisfitOutgrown()
    ensures KeptHere(SECTORS_4096, MISFIT_INFOS, [], MISFIT_ACTS, MISFIT_ENTRIES, MISFIT_SHOWN, MISFIT_DISK, 0)
    ensures Expected(SECTORS_4096, MISFIT_PLAN, MISFIT_SHOWN)
    ensures !AlwaysFits(SECTORS_4096, MISFIT_ENTRIES, MISFIT_DISK,
                        RunLog(SECTORS_4096, MISFIT_PLAN, MISFIT_SHOWN, MISFIT_SHOWN), 256)
  {
    var g, ks := SECTORS_4096, MISFIT_SHOWN;
    MisfitLayout();
    MisfitPlanned();
    MisfitKept();
    KeptHereScene(Gpt, g, MISFIT_INFOS, [], MISFIT_ACTS, MISFIT_ENTRIES, MISFIT_PLAN, ks, ks, MISFIT_DISK, 0);
    KeptDataExactly(g, MISFIT_ENTRIES, MISFIT_PLAN, ks, ks, MISFIT_DISK, 0, 21474836480, 10000000000);
    assert !FitsTable(g, MISFIT_PLAN, 256, 10000000000);
  }

  /** Once the table is applied the shrunk file system is larger than its partition. */
  lemma ShrinkCanMisfit()
    ensures Loses(SECTORS_4096, MISFIT_INFOS, MISFIT_ACTS, MISFIT_ENTRIES, MISFIT_PLAN, MISFIT_SHOWN, MISFIT_DISK, 0)
  {
    MisfitLayout();
    MisfitPlanned();
    MisfitKept();
    MisfitOutgrown();
  }
}
