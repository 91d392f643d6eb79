/** The planning loop of the version 2 disk handler: when it succeeds and what it decides. */
module DiskPlanner {
  import opened Wrappers
  import opened PartTables
  import opened DiskPlan
  import opened DiskActions
  import DosTable

  /** A preserved partition is found where its entry starts, as described, and can be resized if that is due. */
  ghost predicate Possible(g: Geometry, infos: seq<PartInfo>, formats: seq<Format>, a: PartAct, e: Entry) {
    a.preserve ==>
      exists info :: Reported(infos, e.start, info) && AsDescribed(g, a, info) && ResizeCan(a, info, formats)
  }

  lemma StepExactly(g: Geometry, infos: seq<PartInfo>, formats: seq<Format>, r: Result<Plan, PlanError>, a: PartAct,
                    e: Entry)
    ensures r.Ok? ==> (PlanStep(g, infos, formats, r.value, a, e).Ok? <==> Possible(g, infos, formats, a, e))
  {
    FindsReported(infos, e.start);
    var found := FindInfo(infos, e.start);
    if found.Some? {
      VerifiesDescribed(g, a, found.value);
      ResizesAre(g, formats, a, found.value);
      assert Reported(infos, e.start, found.value);
    }
  }

  ghost predicate ResizedFor(g: Geometry, formats: seq<Format>, a: PartAct, info: PartInfo, r: Option<Resize>) {
    var due, now, asked := ResizeDue(a, info, formats), info.size * g.sectorBytes, a.part.size;
    && (due && asked < now ==> r == Some(Resize(info.fstype, asked, Down)))
    && (due && now < asked ==> r == Some(Resize(info.fstype, asked, Up)))
    && (!due || now == asked ==> r == None)
  }

  /** Why an action is refused: the first thing that is not as it should be. */
  lemma WhyRefused(g: Geometry, infos: seq<PartInfo>, formats: seq<Format>, plan: Plan, a: PartAct, e: Entry)
    requires a.preserve
    ensures (forall info :: info in infos ==> info.start != e.start) ==>
      PlanStep(g, infos, formats, plan, a, e) == Err(NoSuchPartition(e.start))
    ensures forall info :: Reported(infos, e.start, info) && !AsDescribed(g, a, info) ==>
      PlanStep(g, infos, formats, plan, a, e) ==
        Err(if AsDescribed(g, a.(part := a.part.(offset := None)), info) then WrongOffset(a.id) else WrongSize(a.id))
    ensures forall info :: Reported(infos, e.start, info) && AsDescribed(g, a, info) && !ResizeCan(a, info, formats) ==>
      PlanStep(g, infos, formats, plan, a, e) ==
        Err(if !AtMostOne(formats, a.id) then TooManyFormats(a.id)
            else if exists f :: f in formats && f.volume == a.id && f.fstype != info.fstype then WrongFstype(a.id)
            else Unsupported(info.fstype))
  {
    FindsReported(infos, e.start);
    FormatsAre(formats, a.id);
    if AtMostOne(formats, a.id) && FormatsOf(formats, a.id) != [] {
      OneFormat(formats, a);
    }
    forall info | Reported(infos, e.start, info) ensures Verify(g, a, info) == None <==> AsDescribed(g, a, info) {
      VerifiesDescribed(g, a, info);
      ResizesAre(g, formats, a, info);
    }
  }

  /** What is decided for action `i`, in terms of its fields: whether and how its partition is wiped at the end,
      whether it is kept, and to what size it is shrunk or grown. */
  ghost predicate DecidedFor(g: Geometry, infos: seq<PartInfo>, formats: seq<Format>, a: PartAct, plan: Plan, o: nat) {
    && o in plan.wipes && (forall mode :: plan.wipes[o] == Some(mode) <==> WipedWith(a, mode))
    && (o in plan.preserved <==> a.preserve) && (o in plan.resizes <==> a.preserve)
    && (a.preserve ==> exists info :: Reported(infos, o, info) && ResizedFor(g, formats, a, info, plan.resizes[o]))
  }

  lemma DecidedByFields(g: Geometry, infos: seq<PartInfo>, formats: seq<Format>, acts: seq<PartAct>,
                        entries: seq<Entry>, i: nat)
    requires i < |acts| == |entries| && DistinctStarts(entries) && Planned(g, infos, formats, acts, entries, |acts|).Ok?
    ensures DecidedFor(g, infos, formats, acts[i], Planned(g, infos, formats, acts, entries, |acts|).value,
                       entries[i].start)
  {
    var o := entries[i].start;
    PlannedAt(g, infos, formats, acts, entries, |acts|, i);
    WipesAre(acts[i]);
    FindsReported(infos, o);
    if acts[i].preserve {
      var info := FindInfo(infos, o).value;
      var r := Planned(g, infos, formats, acts, entries, |acts|).value.resizes[o];
      ResizesAre(g, formats, acts[i], info);
      if r.Some? {
        assert r == Some(Resize(r.value.fstype, r.value.size, r.value.direction));
      }
      assert Reported(infos, o, info) && ResizedFor(g, formats, acts[i], info, r);
    }
  }

  lemma LayoutTaken(kind: TableKind, g: Geometry, acts: seq<PartAct>)
    requires g.sectorBytes > 0 && g.mib > 0
    ensures Layout(kind, g, acts).Ok? <==> (kind == Dos ==> DosTable.Acceptable(Parts(acts)))
    ensures Layout(kind, g, acts).Ok? ==> |Layout(kind, g, acts).value| == |acts|
  {
    if kind == Dos {
      DosTable.LayoutExists(g, Parts(acts));
    }
  }

  /** The table takes every action, and a decision can be taken for each. */
  ghost predicate Plannable(kind: TableKind, g: Geometry, infos: seq<PartInfo>, formats: seq<Format>,
                            acts: seq<PartAct>)
    requires g.sectorBytes > 0 && g.mib > 0
  {
    && (kind == Dos ==> DosTable.Acceptable(Parts(acts)))
    && (LayoutTaken(kind, g, acts);
        forall i :: 0 <= i < |acts| ==> Possible(g, infos, formats, acts[i], Layout(kind, g, acts).value[i]))
  }

  lemma {:induction false} DecidedExactly(g: Geometry, infos: seq<PartInfo>, formats: seq<Format>, acts: seq<PartAct>,
                                          entries: seq<Entry>, n: nat)
    requires n <= |acts| == |entries|
    ensures Planned(g, infos, formats, acts, entries, n).Ok? <==>
      forall i :: 0 <= i < n ==> Possible(g, infos, formats, acts[i], entries[i])
  {
    if n > 0 {
      DecidedExactly(g, infos, formats, acts, entries, n - 1);
      StepExactly(g, infos, formats, Planned(g, infos, formats, acts, entries, n - 1), acts[n - 1], entries[n - 1]);
    }
  }

  lemma MadeExactly(kind: TableKind, g: Geometry, infos: seq<PartInfo>, formats: seq<Format>, acts: seq<PartAct>)
    requires g.sectorBytes > 0 && g.mib > 0
    ensures Made(kind, g, infos, formats, acts) <==> Plannable(kind, g, infos, formats, acts)
  {
    LayoutTaken(kind, g, acts);
    if Layout(kind, g, acts).Ok? {
      DecidedExactly(g, infos, formats, acts, Layout(kind, g, acts).value, |acts|);
    }
  }

  lemma Refused(kind: TableKind, g: Geometry, infos: seq<PartInfo>, formats: seq<Format>, acts: seq<PartAct>, i: nat)
    requires g.sectorBytes > 0 && g.mib > 0 && i < |acts| && !Made(kind, g, infos, formats, acts[..i + 1])
    ensures !Made(kind, g, infos, formats, acts)
  {
    if Made(kind, g, infos, formats, acts) {
      MadeFirst(kind, g, infos, formats, acts, i + 1);
    }
  }

  /** The table of the chosen kind holds the layout of the actions so far. */
  ghost predicate Holds(kind: TableKind, gpt: GptTable, dos: DosTable.DosPartTable, acts: seq<PartAct>,
                        entries: seq<Entry>)
    reads gpt, dos
  {
    && gpt.g == dos.g && gpt.g.Valid() && |entries| == |acts| && Layout(kind, gpt.g, acts) == Ok(entries)
    && match kind {
         case Gpt => gpt.entries == entries
         case Dos => DosTable.DosLayout(gpt.g, Parts(acts)) == Ok(dos.table)
       }
  }

  method AddTo(kind: TableKind, gpt: GptTable, dos: DosTable.DosPartTable, a: PartAct, ghost acts: seq<PartAct>,
               ghost entries: seq<Entry>) returns (r: Result<Entry, Error>)
    requires Holds(kind, gpt, dos, acts, entries)
    modifies gpt, dos
    ensures r.Ok? ==> Holds(kind, gpt, dos, acts + [a], entries + [r.value])
    ensures r.Err? ==> gpt.g.Valid() && Layout(kind, gpt.g, acts + [a]).Err?
  {
    assert Parts(acts + [a])[..|acts|] == Parts(acts);
    match kind
    case Gpt =>
      var e := gpt.Add(a.part);
      r := Ok(e);
    case Dos =>
      r := dos.Add(a.part);
  }

  /** The actions so far came out as these entries and decisions. */
  ghost predicate Underway(kind: TableKind, g: Geometry, infos: seq<PartInfo>, formats: seq<Format>, acts: seq<PartAct>,
                           entries: seq<Entry>, plan: Plan)
    requires g.sectorBytes > 0 && g.mib > 0
  {
    && |entries| == |acts| && Layout(kind, g, acts) == Ok(entries)
    && Planned(g, infos, formats, acts, entries, |acts|) == Ok(plan)
  }

  lemma OneMoreDecided(kind: TableKind, g: Geometry, infos: seq<PartInfo>, formats: seq<Format>, acts: seq<PartAct>,
                       entries: seq<Entry>, plan: Plan, a: PartAct, e: Entry)
    requires g.sectorBytes > 0 && g.mib > 0 && Underway(kind, g, infos, formats, acts, entries, plan)
    requires Layout(kind, g, acts + [a]) == Ok(entries + [e])
    ensures var step := PlanStep(g, infos, formats, plan, a, e);
      if step.Ok? then Underway(kind, g, infos, formats, acts + [a], entries + [e], step.value)
      else !Made(kind, g, infos, formats, acts + [a])
  {
    PlannedExtends(g, infos, formats, acts, entries, [a], [e], |acts|);
  }

  /** One action: it is added to the table, and what to do with its partition is recorded. */
  method PlanOne(kind: TableKind, g: Geometry, infos: seq<PartInfo>, formats: seq<Format>, gpt: GptTable,
                 dos: DosTable.DosPartTable, a: PartAct, plan: Plan, ghost acts: seq<PartAct>,
                 ghost entries: seq<Entry>)
    returns (r: Result<(Plan, Entry), PlanError>)
    requires gpt.g == g && Holds(kind, gpt, dos, acts, entries)
    requires Underway(kind, g, infos, formats, acts, entries, plan)
    modifies gpt, dos
    ensures r.Ok? ==> Holds(kind, gpt, dos, acts + [a], entries + [r.value.1])
    ensures r.Ok? ==> Underway(kind, g, infos, formats, acts + [a], entries + [r.value.1], r.value.0)
    ensures r.Err? ==> !Made(kind, g, infos, formats, acts + [a])
  {
    var added := AddTo(kind, gpt, dos, a, acts, entries);
    if added.Err? {
      return Err(TableError(added.error));
    }
    OneMoreDecided(kind, g, infos, formats, acts, entries, plan, a, added.value);
    var step := PlanStep(g, infos, formats, plan, a, added.value);
    if step.Err? {
      return Err(step.error);
    }
    r := Ok((step.value, added.value));
  }

  /** The planning loop. */
  method MakePlan(kind: TableKind, g: Geometry, infos: seq<PartInfo>, formats: seq<Format>, acts: seq<PartAct>)
    returns (r: Result<Plan, PlanError>, entries: seq<Entry>)
    requires g.Valid() && g.sectorBytes > 0
    ensures r.Ok? <==> Plannable(kind, g, infos, formats, acts)
    ensures r.Ok? ==> Layout(kind, g, acts) == Ok(entries) && |entries| == |acts|
    ensures r.Ok? ==> r == Planned(g, infos, formats, acts, entries, |acts|)
    ensures r.Ok? && DistinctStarts(entries) ==>
      forall i :: 0 <= i < |acts| ==> DecidedFor(g, infos, formats, acts[i], r.value, entries[i].start)
  {
    MadeExactly(kind, g, infos, formats, acts);
    var gpt := new GptTable(g.sectorBytes);
    var dos := new DosTable.DosPartTable(g.sectorBytes);
    var plan := EMPTY_PLAN;
    entries := [];
    for i := 0 to |acts|
      invariant gpt.g == g && Holds(kind, gpt, dos, acts[..i], entries)
      invariant Underway(kind, g, infos, formats, acts[..i], entries, plan)
    {
      assert acts[..i + 1] == acts[..i] + [acts[i]];
      var one := PlanOne(kind, g, infos, formats, gpt, dos, acts[i], plan, acts[..i], entries);
      if one.Err? {
        Refused(kind, g, infos, formats, acts, i);
        return Err(one.error), entries;
      }
      plan, entries := one.value.0, entries + [one.value.1];
    }
    assert acts[..|acts|] == acts;
    r := Ok(plan);
    forall i | DistinctStarts(entries) && 0 <= i < |acts|
      ensures DecidedFor(g, infos, formats, acts[i], plan, entries[i].start)
    {
      DecidedByFields(g, infos, formats, acts, entries, i);
    }
  }
}
