/** Every entry of both partition tables, read off the action it is for and the entries before it. */
module TableEntries {
  import opened Wrappers
  import opened Alignment
  import opened PartTables
  import opened DosTable

  /** The first whole MiB at or after `from`. */
  ghost predicate NextWhole(start: nat, from: nat, mib: nat)
    requires mib > 0
  {
    start % mib == 0 && from <= start < from + mib
  }

  lemma WholeFrom(g: Geometry, from: nat)
    requires g.Valid() && g.sectorBytes > 0
    ensures NextWhole(AlignUp(from, g.mib), from, g.mib)
  {
    OneMibIsPow2(g.sectorBytes);
    AlignUpBounds(from, g.mib);
  }

  // ----- GPT -----

  /** The number and the offset that are given, and otherwise the next number and the first whole MiB that is free. */
  ghost predicate GptFollows(g: Geometry, before: seq<Entry>, a: Action, e: Entry)
    requires g.sectorBytes > 0 && g.mib > 0
  {
    && (a.number.Some? ==> e.number == a.number.value) && (a.number.None? ==> e.number == |before| + 1)
    && (a.offset.Some? ==> e.start == a.offset.value / g.sectorBytes)
    && (a.offset.None? && before == [] ==> e.start == g.mib)
    && (a.offset.None? && before != [] ==>
          NextWhole(e.start, before[|before| - 1].start + before[|before| - 1].size, g.mib))
    && e.size == a.size / g.sectorBytes && !e.extended
  }

  lemma {:induction false} GptEntriesFollow(g: Geometry, actions: seq<Action>, i: nat)
    requires g.Valid() && g.sectorBytes > 0 && i < |actions|
    ensures GptFollows(g, GptLayout(g, actions)[..i], actions[i], GptLayout(g, actions)[i])
  {
    var last := |actions| - 1;
    var es := GptLayout(g, actions);
    assert es[..last] == GptLayout(g, actions[..last]);
    if i < last {
      GptEntriesFollow(g, actions[..last], i);
      assert es[..last][..i] == es[..i] && actions[..last][i] == actions[i];
    } else if last > 0 {
      WholeFrom(g, es[last - 1].start + es[last - 1].size);
    }
  }

  // ----- DOS -----

  /** Flagged as logical, or given a number that only a logical partition can have. */
  ghost predicate AsksLogical(a: Action) { a.flag == Some("logical") || (a.number.Some? && a.number.value > 4) }

  /** Entry `j` is the last logical one, or the last one that is not. */
  ghost predicate LastOf(es: seq<Entry>, logical: bool, j: nat) {
    && j < |es| && (es[j].number > 4 <==> logical)
    && forall k :: j < k < |es| ==> (es[k].number > 4 <==> !logical)
  }

  ghost predicate NoneOf(es: seq<Entry>, logical: bool) {
    forall k :: 0 <= k < |es| ==> (es[k].number > 4 <==> !logical)
  }

  /** Action `x` is the last one for an extended partition. */
  ghost predicate LastExtended(actions: seq<Action>, x: nat) {
    && x < |actions| && actions[x].flag == Some("extended")
    && forall k :: x < k < |actions| ==> actions[k].flag != Some("extended")
  }

  /** `p` is the place of the last logical entry, or the last that is not; none if there is none. */
  ghost predicate IsLast(es: seq<Entry>, logical: bool, p: Option<nat>) {
    if p.Some? then LastOf(es, logical, p.value) else NoneOf(es, logical)
  }

  /** `p` is the place of the last logical entry, `x` that of the last extended one. */
  ghost predicate LogicalFollows(g: Geometry, before: seq<Entry>, a: Action, e: Entry, p: Option<nat>, x: nat)
    requires g.mib > 0 && x < |before| && (p.Some? ==> p.value < |before|)
  {
    && (p.None? ==> e.number == 5 && (a.offset.None? ==> NextWhole(e.start, before[x].start + g.mib, g.mib)))
    && (p.Some? ==>
          var prev := before[p.value];
          && e.number == prev.number + 1
          && (a.offset.None? ==> NextWhole(e.start, prev.start + prev.size + g.mib, g.mib)))
  }

  /** `p` is the place of the last primary entry. */
  ghost predicate PrimaryFollows(g: Geometry, before: seq<Entry>, a: Action, e: Entry, p: Option<nat>)
    requires g.mib > 0 && (p.Some? ==> p.value < |before|)
  {
    && (a.number.Some? ==> e.number == a.number.value) && (a.number.None? ==> e.number == |before| + 1)
    && (a.offset.None? && p.None? ==> e.start == g.mib)
    && (a.offset.None? && p.Some? ==> NextWhole(e.start, before[p.value].start + before[p.value].size, g.mib))
  }

  /** What an entry has from its action in any case. */
  ghost predicate TakenOver(g: Geometry, a: Action, e: Entry)
    requires g.sectorBytes > 0
  {
    && (e.number > 4 <==> AsksLogical(a)) && (e.extended <==> a.flag == Some("extended"))
    && e.size == a.size / g.sectorBytes && (a.offset.Some? ==> e.start == a.offset.value / g.sectorBytes)
  }

  lemma NoneInit(es: seq<Entry>, logical: bool)
    requires es != []
    ensures NoneOf(es, logical) <==> NoneOf(es[..|es| - 1], logical) && (es[|es| - 1].number > 4 <==> !logical)
  {
  }

  lemma {:induction false} NoEntries(es: seq<Entry>)
    ensures Logicals(es) == [] <==> NoneOf(es, true)
    ensures Primaries(es) == [] <==> NoneOf(es, false)
  {
    if es != [] {
      NoneInit(es, true);
      NoneInit(es, false);
      NoEntries(es[..|es| - 1]);
    }
  }

  lemma {:induction false} LastLogical(es: seq<Entry>) returns (j: nat)
    requires Logicals(es) != []
    ensures LastOf(es, true, j) && es[j] == Logicals(es)[|Logicals(es)| - 1]
  {
    j := |es| - 1;
    if es[j].number <= 4 {
      var init := es[..j];
      j := LastLogical(init);
      forall k | j < k < |es| ensures es[k].number <= 4 {
        assert k < |init| ==> init[k] == es[k];
      }
    }
  }

  lemma {:induction false} LastPrimary(es: seq<Entry>) returns (j: nat)
    requires Primaries(es) != []
    ensures LastOf(es, false, j) && es[j] == Primaries(es)[|Primaries(es)| - 1]
  {
    j := |es| - 1;
    if es[j].number > 4 {
      var init := es[..j];
      j := LastPrimary(init);
      forall k | j < k < |es| ensures es[k].number > 4 {
        assert k < |init| ==> init[k] == es[k];
      }
    }
  }

  lemma {:induction false} LayoutStep(g: Geometry, actions: seq<Action>)
    requires g.sectorBytes > 0 && g.mib > 0 && actions != [] && DosLayout(g, actions).Ok?
    ensures var n := |actions| - 1; var init := DosLayout(g, actions[..n]);
      && init.Ok? && |init.value.entries| == n && |DosLayout(g, actions).value.entries| == n + 1
      && DosLayout(g, actions).value.entries[..n] == init.value.entries
      && DosEntry(g, init.value, actions[n]) == Ok(DosLayout(g, actions).value.entries[n])
      && DosLayout(g, actions).value.extended ==
           if actions[n].flag == Some("extended") then Some(DosLayout(g, actions).value.entries[n])
           else init.value.extended
  {
    LayoutExists(g, actions[..|actions| - 1]);
  }

  lemma {:induction false} ExtendedStays(actions: seq<Action>, x: nat)
    requires actions != [] && LastExtended(actions[..|actions| - 1], x)
    requires actions[|actions| - 1].flag != Some("extended")
    ensures LastExtended(actions, x)
  {
    var init := actions[..|actions| - 1];
    forall k | x < k < |actions| ensures actions[k].flag != Some("extended") {
      assert k < |init| ==> init[k] == actions[k];
    }
  }

  /** The table remembers the entry of the last extended action. */
  lemma {:induction false} ExtendedIsLast(g: Geometry, actions: seq<Action>) returns (x: nat)
    requires g.sectorBytes > 0 && g.mib > 0 && DosLayout(g, actions).Ok? && DosLayout(g, actions).value.extended.Some?
    ensures var t := DosLayout(g, actions).value;
      |t.entries| == |actions| && LastExtended(actions, x) && t.entries[x] == t.extended.value
  {
    LayoutStep(g, actions);
    x := |actions| - 1;
    if actions[x].flag != Some("extended") {
      x := ExtendedIsLast(g, actions[..x]);
      ExtendedStays(actions, x);
    }
  }

  /** What is computed for a logical partition. */
  lemma {:induction false} LogicalComputed(g: Geometry, t: Table, a: Action, e: Entry)
    requires g.sectorBytes > 0 && g.mib > 0 && DosEntry(g, t, a) == Ok(e) && AsksLogical(a)
    ensures t.extended.Some? && TakenOver(g, a, e.(number := 5))
    ensures var prev := Last(Logicals(t.entries));
      && e.number == (if prev.None? then 5 else prev.value.number + 1)
      && (a.offset.None? ==> e.start == LogicalStart(g.mib, t.extended.value, prev))
  {
  }

  lemma {:induction false} LastPlace(es: seq<Entry>, logical: bool) returns (p: Option<nat>)
    ensures IsLast(es, logical, p)
    ensures var found := if logical then Logicals(es) else Primaries(es);
      Last(found) == if p.Some? then Some(es[p.value]) else None
  {
    NoEntries(es);
    if logical && Logicals(es) != [] {
      var j := LastLogical(es);
      p := Some(j);
    } else if !logical && Primaries(es) != [] {
      var j := LastPrimary(es);
      p := Some(j);
    } else {
      p := None;
    }
  }

  lemma LogicalPlaced(g: Geometry, es: seq<Entry>, a: Action, e: Entry, p: Option<nat>, x: nat)
    requires g.Valid() && g.sectorBytes > 0 && x < |es| && (p.Some? ==> p.value < |es|)
    requires var prev := if p.Some? then Some(es[p.value]) else None;
      && e.number == (if prev.None? then 5 else prev.value.number + 1)
      && (a.offset.None? ==> e.start == LogicalStart(g.mib, es[x], prev))
    ensures LogicalFollows(g, es, a, e, p, x)
  {
    if p.Some? {
      WholeFrom(g, es[p.value].start + es[p.value].size + g.mib);
    } else {
      WholeFrom(g, es[x].start + g.mib);
    }
  }

  /** A logical entry is numbered after the logical one before it, whatever number is given, and starts a MiB past it,
      or a MiB into the extended one, at the next whole MiB. */
  lemma {:induction false} LogicalEntry(g: Geometry, actions: seq<Action>, t: Table, a: Action, e: Entry)
    returns (p: Option<nat>, x: nat)
    requires g.Valid() && g.sectorBytes > 0 && DosLayout(g, actions) == Ok(t)
    requires DosEntry(g, t, a) == Ok(e) && AsksLogical(a)
    ensures |t.entries| == |actions| && IsLast(t.entries, true, p) && LastExtended(actions, x)
    ensures LogicalFollows(g, t.entries, a, e, p, x) && TakenOver(g, a, e)
  {
    LogicalComputed(g, t, a, e);
    x := ExtendedIsLast(g, actions);
    p := LastPlace(t.entries, true);
    LogicalPlaced(g, t.entries, a, e, p, x);
    if p.Some? {
      assert t.entries[p.value].number > 4;
    }
  }

  /** A primary has the number given or the next, and starts at the next whole MiB past the primary before it. */
  lemma {:induction false} PrimaryEntry(g: Geometry, t: Table, a: Action, e: Entry) returns (p: Option<nat>)
    requires g.Valid() && g.sectorBytes > 0 && DosEntry(g, t, a) == Ok(e) && !AsksLogical(a)
    ensures IsLast(t.entries, false, p) && PrimaryFollows(g, t.entries, a, e, p) && TakenOver(g, a, e)
  {
    p := LastPlace(t.entries, false);
    if p.Some? {
      WholeFrom(g, t.entries[p.value].start + t.entries[p.value].size);
    }
  }

  /** Entry `i` of a DOS layout: `p` is the place of the entry of its kind before it, `x` that of the extended one. */
  lemma {:induction false} DosEntriesFollow(g: Geometry, actions: seq<Action>, i: nat) returns (p: Option<nat>, x: nat)
    requires g.Valid() && g.sectorBytes > 0 && i < |actions| && DosLayout(g, actions).Ok?
    ensures var es, a := DosLayout(g, actions).value.entries, actions[i];
      && |es| == |actions| && TakenOver(g, a, es[i]) && IsLast(es[..i], AsksLogical(a), p)
      && (AsksLogical(a) ==> LastExtended(actions[..i], x) && LogicalFollows(g, es[..i], a, es[i], p, x))
      && (!AsksLogical(a) ==> PrimaryFollows(g, es[..i], a, es[i], p))
  {
    var last := |actions| - 1;
    LayoutStep(g, actions);
    var t, es := DosLayout(g, actions[..last]).value, DosLayout(g, actions).value.entries;
    assert es[..last] == t.entries;
    if i < last {
      p, x := DosEntriesFollow(g, actions[..last], i);
      assert actions[..last][..i] == actions[..i] && es[..last][..i] == es[..i];
    } else if AsksLogical(actions[i]) {
      p, x := LogicalEntry(g, actions[..last], t, actions[i], es[i]);
    } else {
      x := 0;
      p := PrimaryEntry(g, t, actions[i], es[i]);
    }
  }
}
