/** What the events of a run do to the disk, and to a file system that is to be kept. */
module DiskState {
  import opened Wrappers
  import opened Alignment
  import opened PartTables
  import opened DiskPlan
  import opened DiskActions
  import opened DiskRun
  import DosTable

  /** The disk, by start sector: the bytes of each partition, and of the file system on it if there is one. */
  datatype Disk = Disk(parts: map<nat, nat>, fs: map<nat, nat>)

  /** resize2fs is given whole KiB. */
  function ResizedTo(fstype: string, size: nat): nat {
    if fstype == "ntfs" then size else size / 1024 * 1024
  }

  /** The byte ranges [a, a + m) and [b, b + n) share a byte. */
  predicate Overlap(a: nat, m: nat, b: nat, n: nat) { a < b + n && b < a + m && m > 0 && n > 0 }

  /** The table's partitions by start sector, sizes in bytes. */
  function TableParts(g: Geometry, entries: seq<Entry>): map<nat, nat> {
    if entries == [] then map[]
    else
      var e := entries[|entries| - 1];
      TableParts(g, entries[..|entries| - 1])[e.start := e.size * g.sectorBytes]
  }

  /** The event reaches into the partition at `o`: a wipe covers the partition it is made on, as far as it
      extends when the wipe is made, and a zeroing covers a MiB of the disk from its offset. */
  predicate Hits(g: Geometry, parts: map<nat, nat>, ev: Event, o: nat) {
    && o in parts
    && match ev {
         case Wiped(w, _) => w in parts && Overlap(w * g.sectorBytes, parts[w], o * g.sectorBytes, parts[o])
         case Zeroed(off) => Overlap(off, ONE_MIB_BYTES, o * g.sectorBytes, parts[o])
         case _ => false
       }
  }

  /** A wipe or a zeroing destroys every file system whose partition it reaches into. */
  function After(g: Geometry, entries: seq<Entry>, d: Disk, ev: Event): Disk {
    match ev
    case Resized(o, fstype, size) => if o in d.fs then d.(fs := d.fs[o := ResizedTo(fstype, size)]) else d
    case Applied => d.(parts := TableParts(g, entries))
    case _ => d.(fs := map o | o in d.fs && !Hits(g, d.parts, ev, o) :: d.fs[o])
  }

  function AfterAll(g: Geometry, entries: seq<Entry>, d: Disk, log: seq<Event>): Disk {
    if log == [] then d else After(g, entries, AfterAll(g, entries, d, log[..|log| - 1]), log[|log| - 1])
  }

  function AfterOpt(g: Geometry, entries: seq<Entry>, d: Disk, evs: seq<Event>): Disk
    requires |evs| <= 1
  {
    if evs == [] then d else After(g, entries, d, evs[0])
  }

  /** The file system at `o` is there and fits the partition it is on. */
  ghost predicate Fits(d: Disk, o: nat) {
    o in d.fs && o in d.parts && d.fs[o] <= d.parts[o]
  }

  /** At no point of the run is the file system at `o` gone or larger than its partition. */
  ghost predicate AlwaysFits(g: Geometry, entries: seq<Entry>, d: Disk, log: seq<Event>, o: nat) {
    forall m :: 0 <= m <= |log| ==> Fits(AfterAll(g, entries, d, log[..m]), o)
  }

  /** Nothing that happens reaches into the partition at `o`. */
  ghost predicate Spared(g: Geometry, parts: map<nat, nat>, log: seq<Event>, o: nat) {
    forall ev :: ev in log ==> !Hits(g, parts, ev, o)
  }

  lemma SparedConcat(g: Geometry, parts: map<nat, nat>, a: seq<Event>, b: seq<Event>, o: nat)
    ensures Spared(g, parts, a + b, o) <==> Spared(g, parts, a, o) && Spared(g, parts, b, o)
  {
  }

  lemma {:induction false} AfterConcat(g: Geometry, entries: seq<Entry>, d: Disk, a: seq<Event>, b: seq<Event>)
    ensures AfterAll(g, entries, d, a + b) == AfterAll(g, entries, AfterAll(g, entries, d, a), b)
  {
    if b == [] {
      assert a + b == a;
    } else {
      assert (a + b)[..|a + b| - 1] == a + b[..|b| - 1];
      AfterConcat(g, entries, d, a, b[..|b| - 1]);
    }
  }

  lemma AlwaysFitsNone(g: Geometry, entries: seq<Entry>, d: Disk, o: nat)
    requires Fits(d, o)
    ensures AlwaysFits(g, entries, d, [], o)
  {
  }

  /** One event more. */
  lemma OneEvent(g: Geometry, entries: seq<Entry>, d: Disk, done: seq<Event>, ev: Event, o: nat)
    ensures AfterAll(g, entries, d, done + [ev]) == After(g, entries, AfterAll(g, entries, d, done), ev)
    ensures AlwaysFits(g, entries, d, done, o) && Fits(AfterAll(g, entries, d, done + [ev]), o) ==>
      AlwaysFits(g, entries, d, done + [ev], o)
  {
    var all := done + [ev];
    assert all[..|all| - 1] == done;
    if AlwaysFits(g, entries, d, done, o) && Fits(AfterAll(g, entries, d, all), o) {
      forall m | 0 <= m <= |all| ensures Fits(AfterAll(g, entries, d, all[..m]), o) {
        assert all[..m] == if m == |all| then all else done[..m];
      }
    }
  }

  /** One event more, or none. */
  lemma Step(g: Geometry, entries: seq<Entry>, d: Disk, done: seq<Event>, evs: seq<Event>, o: nat)
    requires |evs| <= 1
    ensures var d' := AfterOpt(g, entries, AfterAll(g, entries, d, done), evs);
      && AfterAll(g, entries, d, done + evs) == d'
      && (AlwaysFits(g, entries, d, done, o) && Fits(d', o) ==> AlwaysFits(g, entries, d, done + evs, o))
  {
    if evs == [] {
      assert done + evs == done;
    } else {
      assert evs == [evs[0]];
      OneEvent(g, entries, d, done, evs[0], o);
    }
  }

  lemma AlwaysFitsConcat(g: Geometry, entries: seq<Entry>, d: Disk, a: seq<Event>, b: seq<Event>, o: nat)
    requires AlwaysFits(g, entries, d, a, o) && AlwaysFits(g, entries, AfterAll(g, entries, d, a), b, o)
    ensures AlwaysFits(g, entries, d, a + b, o)
  {
    forall m | 0 <= m <= |a + b| ensures Fits(AfterAll(g, entries, d, (a + b)[..m]), o) {
      if m <= |a| {
        assert (a + b)[..m] == a[..m];
      } else {
        assert (a + b)[..m] == a + b[..m - |a|];
        AfterConcat(g, entries, d, a, b[..m - |a|]);
      }
    }
  }

  /** As long as no table is applied the partitions stay, and a file system survives exactly if it is spared. */
  lemma {:induction false} Survival(g: Geometry, entries: seq<Entry>, d: Disk, log: seq<Event>, o: nat)
    requires Applied !in log
    ensures AfterAll(g, entries, d, log).parts == d.parts
    ensures o in AfterAll(g, entries, d, log).fs <==> o in d.fs && Spared(g, d.parts, log, o)
  {
    if log != [] {
      var init, last := log[..|log| - 1], log[|log| - 1];
      Survival(g, entries, d, init, o);
      assert log == init + [last];
      SparedConcat(g, d.parts, init, [last], o);
    }
  }

  /** Wipes and zeroings that spare a file system leave it as it is, all the time. */
  lemma {:induction false} SparedFits(g: Geometry, entries: seq<Entry>, d: Disk, log: seq<Event>, o: nat)
    requires Fits(d, o) && Spared(g, d.parts, log, o) && forall ev :: ev in log ==> ev.Wiped? || ev.Zeroed?
    ensures var d' := AfterAll(g, entries, d, log);
      AlwaysFits(g, entries, d, log, o) && Fits(d', o) && d'.parts == d.parts && d'.fs[o] == d.fs[o]
  {
    if log == [] {
      AlwaysFitsNone(g, entries, d, o);
    } else {
      var init, last := log[..|log| - 1], log[|log| - 1];
      SparedFits(g, entries, d, init, o);
      assert last in log && log == init + [last];
      Step(g, entries, d, init, [last], o);
    }
  }

  // ----- Which phases wipe, and which apply -----

  lemma {:induction false} PreWipesOnlyWipe(g: Geometry, plan: Plan, ks: seq<KPart>, n: nat)
    requires g.sectorBytes > 0 && n <= |ks|
    ensures forall ev :: ev in PreWipes(g, plan, ks, n) ==> ev.Wiped? || ev.Zeroed?
  {
    if n > 0 {
      PreWipesOnlyWipe(g, plan, ks, n - 1);
    }
  }

  lemma {:induction false} ShrinksOnlyResize(g: Geometry, plan: Plan, ks: seq<KPart>, n: nat)
    requires g.sectorBytes > 0 && n <= |ks|
    ensures forall ev :: ev in Shrinks(g, plan, ks, n) ==> ev.Resized?
  {
    if n > 0 {
      ShrinksOnlyResize(g, plan, ks, n - 1);
    }
  }

  lemma {:induction false} FinishesNeverApply(g: Geometry, plan: Plan, after: seq<KPart>, n: nat)
    requires g.sectorBytes > 0 && Expected(g, plan, after) && n <= |after|
    ensures Applied !in Finishes(g, plan, after, n)
  {
    if n > 0 {
      FinishesNeverApply(g, plan, after, n - 1);
    }
  }

  // ----- What the plan must say of a partition whose data is to be kept -----

  /** `size` is what the action asks for, `now` what the partition has, both in bytes. */
  ghost predicate Guarded(plan: Plan, o: nat, now: nat, size: nat) {
    && o in plan.preserved && o in plan.wipes && plan.wipes[o] == None && o in plan.resizes
    && (plan.resizes[o] == None ==> now == size)
    && (plan.resizes[o].Some? && plan.resizes[o].value.direction == Down ==> size < now)
    && (plan.resizes[o].Some? && plan.resizes[o].value.direction == Up ==> now < size)
    && (plan.resizes[o].Some? ==> plan.resizes[o].value.size == size)
  }

  /** Data is kept on a preserved partition that is not wiped, is not the extended one, holds a file system,
      and is not about to be formatted anew. */
  ghost predicate Kept(a: PartAct, info: PartInfo, formats: seq<Format>) {
    a.preserve && a.wipe == None && a.part.flag != Some("extended") && info.fstype != "" && NotReformatted(a, formats)
  }

  lemma KeptIsGuarded(g: Geometry, infos: seq<PartInfo>, formats: seq<Format>, acts: seq<PartAct>,
                      entries: seq<Entry>, i: nat)
    requires i < |acts| == |entries| && DistinctStarts(entries)
    requires Planned(g, infos, formats, acts, entries, |acts|).Ok?
    requires FindInfo(infos, entries[i].start).Some? && Kept(acts[i], FindInfo(infos, entries[i].start).value, formats)
    ensures Guarded(Planned(g, infos, formats, acts, entries, |acts|).value, entries[i].start,
                    FindInfo(infos, entries[i].start).value.size * g.sectorBytes, acts[i].part.size)
  {
    PlannedAt(g, infos, formats, acts, entries, |acts|, i);
    FormatsAre(formats, acts[i].id);
  }

  predicate Shrinking(plan: Plan, o: nat) {
    o in plan.resizes && plan.resizes[o].Some? && plan.resizes[o].value.direction == Down
  }

  predicate Growing(plan: Plan, o: nat) {
    o in plan.resizes && plan.resizes[o].Some? && plan.resizes[o].value.direction == Up
  }

  function Target(plan: Plan, o: nat): nat
    requires o in plan.resizes && plan.resizes[o].Some?
  {
    ResizedTo(plan.resizes[o].value.fstype, plan.resizes[o].value.size)
  }

  lemma TargetAtMost(plan: Plan, o: nat)
    requires o in plan.resizes && plan.resizes[o].Some?
    ensures Target(plan, o) <= plan.resizes[o].value.size
  {
  }

  /** The size a file system of `was` bytes has once its resize, in the given direction, has had its turn. */
  function SizeAfter(plan: Plan, o: nat, was: nat, shrunk: bool, grown: bool): nat {
    if (shrunk && Shrinking(plan, o)) || (grown && Growing(plan, o)) then Target(plan, o) else was
  }

  // ----- Phase by phase -----

  /** Before the table is applied: the old partitions, and the file system shrunk if its turn has come. */
  ghost predicate Waiting(d: Disk, parts: map<nat, nat>, plan: Plan, o: nat, was: nat, shrunk: bool) {
    Fits(d, o) && d.parts == parts && d.fs[o] == SizeAfter(plan, o, was, shrunk, false)
  }

  lemma ShrinkOne(g: Geometry, entries: seq<Entry>, plan: Plan, d: Disk, parts: map<nat, nat>, o': nat, o: nat,
                  was: nat, size: nat, shrunk: bool)
    requires o in parts && Guarded(plan, o, parts[o], size) && Waiting(d, parts, plan, o, was, shrunk)
    ensures Waiting(AfterOpt(g, entries, d, ResizeEvent(plan, o', Down)), parts, plan, o, was, shrunk || o' == o)
  {
    if Shrinking(plan, o) {
      TargetAtMost(plan, o);
    }
  }

  lemma ShownNext(g: Geometry, ks: seq<KPart>, n: nat, o: nat)
    requires g.sectorBytes > 0 && 0 < n <= |ks|
    ensures Shown(g, ks, n, o) <==> Shown(g, ks, n - 1, o) || g.Sectors(ks[n - 1].offset) == o
  {
  }

  lemma {:induction false} ShrinkPhase(g: Geometry, entries: seq<Entry>, plan: Plan, ks: seq<KPart>, n: nat, d: Disk,
                                       o: nat, was: nat, size: nat)
    requires g.sectorBytes > 0 && n <= |ks| && o in d.parts && Guarded(plan, o, d.parts[o], size)
    requires Waiting(d, d.parts, plan, o, was, false)
    ensures AlwaysFits(g, entries, d, Shrinks(g, plan, ks, n), o)
    ensures Waiting(AfterAll(g, entries, d, Shrinks(g, plan, ks, n)), d.parts, plan, o, was, Shown(g, ks, n, o))
  {
    if n == 0 {
      AlwaysFitsNone(g, entries, d, o);
    } else {
      var done := Shrinks(g, plan, ks, n - 1);
      var o' := g.Sectors(ks[n - 1].offset);
      ShrinkPhase(g, entries, plan, ks, n - 1, d, o, was, size);
      ShownNext(g, ks, n, o);
      ShrinkOne(g, entries, plan, AfterAll(g, entries, d, done), d.parts, o', o, was, size, Shown(g, ks, n - 1, o));
      Step(g, entries, d, done, ResizeEvent(plan, o', Down), o);
    }
  }

  /** After the table was applied: the new partitions, and the file system grown if its turn has come. */
  ghost predicate Settled(d: Disk, parts: map<nat, nat>, plan: Plan, o: nat, was: nat, grown: bool) {
    o in d.fs && o in d.parts && d.parts == parts && d.fs[o] == SizeAfter(plan, o, was, true, grown)
  }

  lemma FinishOne(g: Geometry, entries: seq<Entry>, plan: Plan, d: Disk, parts: map<nat, nat>, o': nat, o: nat,
                  was: nat, grown: bool)
    requires o' in plan.wipes && Settled(d, parts, plan, o, was, grown) && Spared(g, parts, FinalWipe(plan, o'), o)
    ensures var d1 := AfterOpt(g, entries, d, FinalWipe(plan, o'));
      Settled(d1, parts, plan, o, was, grown) && d1.fs[o] == d.fs[o]
        && Settled(AfterOpt(g, entries, d1, ResizeEvent(plan, o', Up)), parts, plan, o, was, grown || o' == o)
  {
    assert FinalWipe(plan, o') != [] ==> !Hits(g, parts, FinalWipe(plan, o')[0], o);
  }

  /** The events of one more partition, a wipe and then a resize. */
  lemma FinishStep(g: Geometry, entries: seq<Entry>, plan: Plan, d: Disk, done: seq<Event>, parts: map<nat, nat>,
                   o': nat, o: nat, was: nat, grown: bool)
    requires o' in plan.wipes && Settled(AfterAll(g, entries, d, done), parts, plan, o, was, grown)
    requires Spared(g, parts, FinalWipe(plan, o'), o)
    ensures Settled(AfterAll(g, entries, d, done + Finish(plan, o')), parts, plan, o, was, grown || o' == o)
    ensures AlwaysFits(g, entries, d, done, o) && (Growing(plan, o) ==> Target(plan, o) <= parts[o]) ==>
      AlwaysFits(g, entries, d, done + Finish(plan, o'), o)
  {
    FinishOne(g, entries, plan, AfterAll(g, entries, d, done), parts, o', o, was, grown);
    assert done[..|done|] == done;
    Step(g, entries, d, done, FinalWipe(plan, o'), o);
    Step(g, entries, d, done + FinalWipe(plan, o'), ResizeEvent(plan, o', Up), o);
    assert done + Finish(plan, o') == done + FinalWipe(plan, o') + ResizeEvent(plan, o', Up);
  }

  lemma SparedFinishes(g: Geometry, parts: map<nat, nat>, plan: Plan, after: seq<KPart>, n: nat, o: nat)
    requires g.sectorBytes > 0 && Expected(g, plan, after) && 0 < n <= |after|
    requires Spared(g, parts, Finishes(g, plan, after, n), o)
    ensures Spared(g, parts, Finishes(g, plan, after, n - 1), o)
    ensures Spared(g, parts, FinalWipe(plan, g.Sectors(after[n - 1].offset)), o)
  {
    var o' := g.Sectors(after[n - 1].offset);
    SparedConcat(g, parts, Finishes(g, plan, after, n - 1), Finish(plan, o'), o);
    SparedConcat(g, parts, FinalWipe(plan, o'), ResizeEvent(plan, o', Up), o);
  }

  lemma {:induction false} FinishPhase(g: Geometry, entries: seq<Entry>, plan: Plan, after: seq<KPart>, n: nat, d: Disk,
                                       o: nat, was: nat)
    requires g.sectorBytes > 0 && Expected(g, plan, after) && n <= |after|
    requires Settled(d, d.parts, plan, o, was, false) && Spared(g, d.parts, Finishes(g, plan, after, n), o)
    ensures Settled(AfterAll(g, entries, d, Finishes(g, plan, after, n)), d.parts, plan, o, was, Shown(g, after, n, o))
    ensures Fits(d, o) && (Growing(plan, o) ==> Target(plan, o) <= d.parts[o]) ==>
      AlwaysFits(g, entries, d, Finishes(g, plan, after, n), o)
  {
    if n == 0 {
      if Fits(d, o) {
        AlwaysFitsNone(g, entries, d, o);
      }
    } else {
      var done := Finishes(g, plan, after, n - 1);
      var o' := g.Sectors(after[n - 1].offset);
      SparedFinishes(g, d.parts, plan, after, n, o);
      FinishPhase(g, entries, plan, after, n - 1, d, o, was);
      ShownNext(g, after, n, o);
      FinishStep(g, entries, plan, d, done, d.parts, o', o, was, Shown(g, after, n - 1, o));
    }
  }

  lemma {:induction false} TablePartsAt(g: Geometry, entries: seq<Entry>, i: nat)
    requires i < |entries| && DistinctStarts(entries)
    ensures entries[i].start in TableParts(g, entries)
    ensures TableParts(g, entries)[entries[i].start] == entries[i].size * g.sectorBytes
  {
    if i < |entries| - 1 {
      var init := entries[..|entries| - 1];
      TablePartsAt(g, init, i);
      assert entries[i].start != entries[|entries| - 1].start;
    }
  }
}
