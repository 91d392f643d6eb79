/** The DOS partition table: primaries side by side, logicals strung out inside the extended partition. */
module DosTable {
  import opened Wrappers
  import opened Alignment
  import opened PartTables

  datatype Table = Table(entries: seq<Entry>, extended: Option<Entry>)

  const EMPTY_TABLE := Table([], None)

  predicate IsLogical(a: Action) { a.flag == Some("logical") || (a.number.Some? && a.number.value > 4) }

  predicate IsExtended(a: Action) { a.flag == Some("extended") }

  /** The logical partitions, in the order they were added. */
  function Logicals(es: seq<Entry>): seq<Entry> {
    if es == [] then []
    else Logicals(es[..|es| - 1]) + (if es[|es| - 1].number > 4 then [es[|es| - 1]] else [])
  }

  function Primaries(es: seq<Entry>): seq<Entry> {
    if es == [] then []
    else Primaries(es[..|es| - 1]) + (if es[|es| - 1].number <= 4 then [es[|es| - 1]] else [])
  }

  function Last(es: seq<Entry>): Option<Entry> { if es == [] then None else Some(es[|es| - 1]) }

  function LogicalStart(mib: nat, extended: Entry, prev: Option<Entry>): nat
    requires mib > 0
  {
    match prev
    case None => AlignUp(extended.start + mib, mib)
    case Some(p) => AlignUp(p.start + p.size + mib, mib)
  }

  function PrimaryStart(mib: nat, prev: Option<Entry>): nat
    requires mib > 0
  {
    match prev
    case None => mib
    case Some(p) => AlignUp(p.start + p.size, mib)
  }

  /** The entry an action yields, given the table so far. */
  function DosEntry(g: Geometry, t: Table, a: Action): Result<Entry, Error>
    requires g.sectorBytes > 0 && g.mib > 0
  {
    var size := g.Sectors(a.size);
    if IsLogical(a) then
      if t.extended.None? then Err(NoExtended)
      else
        var prev := Last(Logicals(t.entries));
        var start := if a.offset.Some? then g.Sectors(a.offset.value) else LogicalStart(g.mib, t.extended.value, prev);
        Ok(Entry(if prev.None? then 5 else prev.value.number + 1, start, size, IsExtended(a)))
    else
      var number := if a.number.Some? then a.number.value else |t.entries| + 1;
      if number > 4 then Err(BadPrimaryNumber(number))
      else
        var prev := Last(Primaries(t.entries));
        var start := if a.offset.Some? then g.Sectors(a.offset.value) else PrimaryStart(g.mib, prev);
        Ok(Entry(number, start, size, IsExtended(a)))
  }

  function Added(t: Table, a: Action, e: Entry): Table {
    Table(t.entries + [e], if IsExtended(a) then Some(e) else t.extended)
  }

  /** The table after a list of actions, or the first error. */
  function DosLayout(g: Geometry, actions: seq<Action>): Result<Table, Error>
    requires g.sectorBytes > 0 && g.mib > 0
  {
    if actions == [] then Ok(EMPTY_TABLE)
    else
      var init, a := DosLayout(g, actions[..|actions| - 1]), actions[|actions| - 1];
      match init
      case Err(e) => Err(e)
      case Ok(t) => (match DosEntry(g, t, a) case Err(e) => Err(e) case Ok(e) => Ok(Added(t, a, e)))
  }

  ghost predicate ExtendedAmong(actions: seq<Action>, n: nat)
    requires n <= |actions|
  {
    exists j :: 0 <= j < n && IsExtended(actions[j])
  }

  /** A logical partition needs an extended one before it; a primary one without a number takes the next, at most 4. */
  ghost predicate Acceptable(actions: seq<Action>) {
    forall i :: 0 <= i < |actions| ==>
      if IsLogical(actions[i]) then ExtendedAmong(actions, i) else actions[i].number.None? ==> i < 4
  }

  lemma AcceptableSnoc(init: seq<Action>, a: Action)
    ensures Acceptable(init + [a]) <==>
      Acceptable(init) && if IsLogical(a) then ExtendedAmong(init, |init|) else a.number.None? ==> |init| < 4
    ensures ExtendedAmong(init + [a], |init| + 1) <==> ExtendedAmong(init, |init|) || IsExtended(a)
  {
    var all := init + [a];
    assert forall j :: 0 <= j < |init| ==> all[j] == init[j];
    assert all[|init|] == a;
    forall i | 0 <= i <= |init| ensures ExtendedAmong(all, i) <==> ExtendedAmong(init, i) {
      if ExtendedAmong(init, i) {
        var j :| 0 <= j < i && IsExtended(init[j]);
        assert IsExtended(all[j]);
      }
    }
    assert Acceptable(all) ==> if IsLogical(all[|init|]) then ExtendedAmong(all, |init|) else true;
  }

  /** The table takes every action exactly when they are acceptable. */
  lemma {:induction false} LayoutExists(g: Geometry, actions: seq<Action>)
    requires g.sectorBytes > 0 && g.mib > 0
    ensures DosLayout(g, actions).Ok? <==> Acceptable(actions)
    ensures DosLayout(g, actions).Ok? ==> |DosLayout(g, actions).value.entries| == |actions|
    ensures DosLayout(g, actions).Ok? ==>
      (DosLayout(g, actions).value.extended.Some? <==> ExtendedAmong(actions, |actions|))
  {
    if actions != [] {
      var init, a := actions[..|actions| - 1], actions[|actions| - 1];
      assert actions == init + [a];
      LayoutExists(g, init);
      AcceptableSnoc(init, a);
    }
  }

  class DosPartTable {
    const g: Geometry
    var table: Table

    constructor (sectorBytes: nat)
      requires OneMibSectors(sectorBytes).Ok?
      ensures g.Valid() && g.sectorBytes == sectorBytes && table == EMPTY_TABLE
    {
      OneMibIsPow2(sectorBytes);
      g := Geometry(sectorBytes, OneMibSectors(sectorBytes).value);
      table := EMPTY_TABLE;
    }

    /** Walks the entries from the back. */
    method FindLastLogical() returns (prev: Option<Entry>)
      ensures prev == Last(Logicals(table.entries))
    {
      var i := |table.entries|;
      assert table.entries[..i] == table.entries;
      while i > 0
        invariant 0 <= i <= |table.entries|
        invariant Last(Logicals(table.entries)) == Last(Logicals(table.entries[..i]))
      {
        i := i - 1;
        assert table.entries[..i + 1][..i] == table.entries[..i];
        if table.entries[i].number > 4 {
          return Some(table.entries[i]);
        }
      }
      return None;
    }

    /** Walks the entries from the front and keeps the last match. */
    method FindLastPrimary() returns (prev: Option<Entry>)
      ensures prev == Last(Primaries(table.entries))
    {
      prev := None;
      for i := 0 to |table.entries|
        invariant prev == Last(Primaries(table.entries[..i]))
      {
        assert table.entries[..i + 1][..i] == table.entries[..i];
        if table.entries[i].number <= 4 {
          prev := Some(table.entries[i]);
        }
      }
      assert table.entries[..|table.entries|] == table.entries;
    }

    method Add(a: Action) returns (r: Result<Entry, Error>)
      requires g.Valid()
      modifies this
      ensures r == DosEntry(g, old(table), a)
      ensures table == if r.Ok? then Added(old(table), a, r.value) else old(table)
    {
      var start := if a.offset.Some? then g.Sectors(a.offset.value) else 0;
      var number;
      if IsLogical(a) {
        if table.extended.None? {
          return Err(NoExtended);
        }
        var prev := FindLastLogical();
        number := if prev.None? then 5 else prev.value.number + 1;
        if a.offset.None? {
          start := LogicalStart(g.mib, table.extended.value, prev);
        }
      } else {
        number := if a.number.Some? then a.number.value else |table.entries| + 1;
        if number > 4 {
          return Err(BadPrimaryNumber(number));
        }
        if a.offset.None? {
          var prev := FindLastPrimary();
          start := PrimaryStart(g.mib, prev);
        }
      }
      var e := Entry(number, start, g.Sectors(a.size), IsExtended(a));
      table := Added(table, a, e);
      r := Ok(e);
    }
  }

  // ----- What every offset-free table keeps -----

  /** At most one extended partition, and it is numbered as a primary. */
  ghost predicate OneExtended(actions: seq<Action>) {
    && (forall i, j :: 0 <= i < j < |actions| ==> !IsExtended(actions[i]) || !IsExtended(actions[j]))
    && (forall a :: a in actions && IsExtended(a) ==> !IsLogical(a))
  }

  ghost predicate Increasing(es: seq<Entry>) {
    forall i, j :: 0 <= i < j < |es| ==> es[i].start + es[i].size <= es[j].start
  }

  /** The room the first `n` logicals take: a gap and the rounded size each. */
  function Span(mib: nat, ls: seq<Entry>, n: nat): nat
    requires mib > 0 && n <= |ls|
  {
    if n == 0 then 0 else Span(mib, ls, n - 1) + AlignUp(ls[n - 1].size, mib) + mib
  }

  /** Logical `n` carries the next number and starts a gap past everything before it. */
  ghost predicate StrungAt(mib: nat, extended: Entry, ls: seq<Entry>, n: nat)
    requires mib > 0 && n < |ls|
  {
    ls[n].number == 5 + n && ls[n].start == extended.start + mib + Span(mib, ls, n)
  }

  ghost predicate Strung(mib: nat, extended: Entry, ls: seq<Entry>)
    requires mib > 0
  {
    forall n :: 0 <= n < |ls| ==> StrungAt(mib, extended, ls, n)
  }

  ghost predicate Aligned(mib: nat, es: seq<Entry>)
    requires mib > 0
  {
    forall i :: 0 <= i < |es| ==> es[i].start % mib == 0
  }

  ghost predicate Sound(mib: nat, t: Table)
    requires mib > 0
  {
    && Aligned(mib, t.entries) && Increasing(Primaries(t.entries))
    && (t.extended.None? ==> Logicals(t.entries) == [] && forall e :: e in t.entries ==> !e.extended)
    && (t.extended.Some? ==>
         && t.extended.value in t.entries && t.extended.value.number <= 4 && t.extended.value.extended
         && Strung(mib, t.extended.value, Logicals(t.entries))
         && forall i :: 0 <= i < |t.entries| && t.entries[i].extended ==> t.entries[i] == t.extended.value)
  }

  lemma {:induction false} FilterMembers(es: seq<Entry>, e: Entry)
    ensures e in Logicals(es) <==> e in es && e.number > 4
    ensures e in Primaries(es) <==> e in es && e.number <= 4
  {
    if es != [] {
      FilterMembers(es[..|es| - 1], e);
      assert es == es[..|es| - 1] + [es[|es| - 1]];
    }
  }

  lemma {:induction false} SpanPrefix(mib: nat, ls: seq<Entry>, more: seq<Entry>, n: nat)
    requires mib > 0 && n <= |ls|
    ensures Span(mib, ls + more, n) == Span(mib, ls, n)
  {
    if n > 0 {
      SpanPrefix(mib, ls, more, n - 1);
    }
  }

  lemma {:induction false} SpanGrows(mib: nat, ls: seq<Entry>, i: nat, j: nat)
    requires mib > 0 && IsPow2(mib) && i < j <= |ls|
    ensures Span(mib, ls, i) + ls[i].size + mib <= Span(mib, ls, j)
    decreases j
  {
    AlignUpBounds(ls[j - 1].size, mib);
    if i < j - 1 {
      SpanGrows(mib, ls, i, j - 1);
    }
  }

  lemma {:induction false} SpanAligned(mib: nat, ls: seq<Entry>, n: nat)
    requires mib > 0 && IsPow2(mib) && n <= |ls|
    ensures Span(mib, ls, n) % mib == 0
  {
    if n > 0 {
      SpanAligned(mib, ls, n - 1);
      AlignUpBounds(ls[n - 1].size, mib);
      SelfMultiple(mib);
      SumOfMultiples(Span(mib, ls, n - 1), AlignUp(ls[n - 1].size, mib), mib);
      SumOfMultiples(Span(mib, ls, n - 1) + AlignUp(ls[n - 1].size, mib), mib, mib);
    }
  }

  lemma ThreeMultiples(a: nat, b: nat, m: nat)
    requires m > 0 && a % m == 0 && b % m == 0
    ensures (a + m + b) % m == 0 && (a + m) % m == 0
  {
    SelfMultiple(m);
    SumOfMultiples(a, m, m);
    SumOfMultiples(a + m, b, m);
  }

  lemma AlignUpPast(at: nat, size: nat, m: nat)
    requires m > 0 && IsPow2(m) && at % m == 0
    ensures AlignUp(at + size + m, m) == at + AlignUp(size, m) + m
  {
    assert (at + m) % m == 0 by { ThreeMultiples(at, 0, m); }
    AlignUpFrom(at + m, size, m);
  }

  lemma FirstStart(mib: nat, ext: nat)
    requires mib > 0 && IsPow2(mib) && ext % mib == 0
    ensures AlignUp(ext + mib, mib) == ext + mib
  {
    ThreeMultiples(ext, 0, mib);
    AlignUpMultiple(ext + mib, mib);
  }

  lemma NextStart(mib: nat, ext: nat, span: nat, size: nat)
    requires mib > 0 && IsPow2(mib) && ext % mib == 0 && span % mib == 0
    ensures AlignUp(ext + mib + span + size + mib, mib) == ext + mib + span + AlignUp(size, mib) + mib
  {
    ThreeMultiples(ext, span, mib);
    AlignUpPast(ext + mib + span, size, mib);
  }

  lemma NextLogicalStart(mib: nat, ext: nat, span: nat, ls: seq<Entry>, n: nat)
    requires mib > 0 && IsPow2(mib) && ext % mib == 0 && n < |ls| && span == Span(mib, ls, n)
    requires ls[n].start == ext + mib + span
    ensures AlignUp(ls[n].start + ls[n].size + mib, mib) == ext + mib + Span(mib, ls, n + 1)
  {
    SpanAligned(mib, ls, n);
    NextStart(mib, ext, span, ls[n].size);
  }

  /** Where the next logical goes: past everything strung so far. */
  lemma LogicalStartIs(mib: nat, extended: Entry, ls: seq<Entry>)
    requires mib > 0 && IsPow2(mib) && extended.start % mib == 0 && Strung(mib, extended, ls)
    ensures LogicalStart(mib, extended, Last(ls)) == extended.start + mib + Span(mib, ls, |ls|)
  {
    if ls == [] {
      FirstStart(mib, extended.start);
    } else {
      var n := |ls| - 1;
      assert StrungAt(mib, extended, ls, n);
      NextLogicalStart(mib, extended.start, Span(mib, ls, n), ls, n);
    }
  }

  lemma StrungFurther(mib: nat, extended: Entry, ls: seq<Entry>, e: Entry)
    requires mib > 0 && Strung(mib, extended, ls)
    requires e.start == extended.start + mib + Span(mib, ls, |ls|) && e.number == 5 + |ls|
    ensures Strung(mib, extended, ls + [e])
  {
    forall n | 0 <= n <= |ls| ensures StrungAt(mib, extended, ls + [e], n) {
      SpanPrefix(mib, ls, [e], n);
      assert n < |ls| ==> StrungAt(mib, extended, ls, n);
    }
  }

  /** A new logical continues the string. */
  lemma LogicalContinues(mib: nat, extended: Entry, ls: seq<Entry>, e: Entry)
    requires mib > 0 && IsPow2(mib) && extended.start % mib == 0 && Strung(mib, extended, ls)
    requires e.start == LogicalStart(mib, extended, Last(ls))
    requires e.number == if ls == [] then 5 else ls[|ls| - 1].number + 1
    ensures Strung(mib, extended, ls + [e]) && e.start % mib == 0
  {
    assert e.start == extended.start + mib + Span(mib, ls, |ls|) by { LogicalStartIs(mib, extended, ls); }
    assert e.start % mib == 0 by {
      SpanAligned(mib, ls, |ls|);
      ThreeMultiples(extended.start, Span(mib, ls, |ls|), mib);
    }
    assert ls != [] ==> StrungAt(mib, extended, ls, |ls| - 1);
    StrungFurther(mib, extended, ls, e);
  }

  lemma PrimaryContinues(mib: nat, ps: seq<Entry>, e: Entry)
    requires mib > 0 && IsPow2(mib) && Aligned(mib, ps) && Increasing(ps) && e.start == PrimaryStart(mib, Last(ps))
    ensures Increasing(ps + [e]) && e.start % mib == 0
  {
    SelfMultiple(mib);
    if ps != [] {
      var p := ps[|ps| - 1];
      AlignUpBounds(p.start + p.size, mib);
      forall i | 0 <= i < |ps| ensures ps[i].start + ps[i].size <= e.start {
        if i < |ps| - 1 {
          assert ps[i].start + ps[i].size <= p.start;
        }
      }
    }
  }

  lemma PrimariesAligned(mib: nat, es: seq<Entry>)
    requires mib > 0 && Aligned(mib, es)
    ensures Aligned(mib, Primaries(es))
  {
    forall i | 0 <= i < |Primaries(es)| ensures Primaries(es)[i].start % mib == 0 {
      assert Primaries(es)[i] in Primaries(es);
      FilterMembers(es, Primaries(es)[i]);
    }
  }

  lemma AddedSplits(es: seq<Entry>, e: Entry)
    ensures Logicals(es + [e]) == Logicals(es) + (if e.number > 4 then [e] else [])
    ensures Primaries(es + [e]) == Primaries(es) + (if e.number <= 4 then [e] else [])
  {
    assert (es + [e])[..|es|] == es;
  }

  lemma SoundAfterLogical(g: Geometry, t: Table, a: Action, e: Entry)
    requires g.Valid() && IsPow2(g.mib) && Sound(g.mib, t) && IsLogical(a) && !IsExtended(a) && a.offset == None
    requires DosEntry(g, t, a) == Ok(e)
    ensures Sound(g.mib, Added(t, a, e))
  {
    var ext := t.extended.value;
    var i :| 0 <= i < |t.entries| && t.entries[i] == ext;
    var ls := Logicals(t.entries);
    LogicalContinues(g.mib, ext, ls, e);
    assert e.number > 4 by {
      if ls != [] {
        assert StrungAt(g.mib, ext, ls, |ls| - 1);
      }
    }
    AddedSplits(t.entries, e);
  }

  lemma AlignedAfter(mib: nat, es: seq<Entry>, e: Entry)
    requires mib > 0 && Aligned(mib, es) && e.start % mib == 0
    ensures Aligned(mib, es + [e])
  {
  }

  lemma SoundAfterPrimary(g: Geometry, t: Table, a: Action, e: Entry)
    requires g.Valid() && IsPow2(g.mib) && Sound(g.mib, t) && !IsLogical(a) && a.offset == None
    requires DosEntry(g, t, a) == Ok(e) && (IsExtended(a) ==> t.extended.None?)
    ensures Sound(g.mib, Added(t, a, e))
  {
    var r := Added(t, a, e);
    AddedSplits(t.entries, e);
    assert Aligned(g.mib, r.entries) && Increasing(Primaries(r.entries)) by {
      PrimariesAligned(g.mib, t.entries);
      PrimaryContinues(g.mib, Primaries(t.entries), e);
      AlignedAfter(g.mib, t.entries, e);
    }
    assert r.entries[|t.entries|] == e;
    if t.extended.None? {
      forall i | 0 <= i < |r.entries| ensures r.entries[i].extended ==> IsExtended(a) && r.entries[i] == e {
        if i < |t.entries| {
          assert r.entries[i] == t.entries[i] && t.entries[i] in t.entries;
        }
      }
    } else {
      var k :| 0 <= k < |t.entries| && t.entries[k] == t.extended.value;
      assert r.entries[k] == t.extended.value;
      assert Logicals(r.entries) == Logicals(t.entries);
    }
  }

  /** Every offset-free run that succeeds leaves a sound table. */
  lemma {:induction false} LayoutSound(g: Geometry, actions: seq<Action>)
    requires g.Valid() && OffsetFree(actions) && OneExtended(actions) && DosLayout(g, actions).Ok?
    ensures Sound(g.mib, DosLayout(g, actions).value)
    ensures DosLayout(g, actions).value.extended.Some? ==> exists i :: 0 <= i < |actions| && IsExtended(actions[i])
  {
    OneMibIsPow2(g.sectorBytes);
    if actions != [] {
      var init, a := actions[..|actions| - 1], actions[|actions| - 1];
      assert forall x :: x in init ==> x in actions;
      assert a in actions;
      LayoutSound(g, init);
      var t, e := DosLayout(g, init).value, DosEntry(g, DosLayout(g, init).value, a).value;
      if IsLogical(a) {
        SoundAfterLogical(g, t, a, e);
      } else {
        SoundAfterPrimary(g, t, a, e);
      }
      if i :| 0 <= i < |init| && IsExtended(init[i]) {
        assert actions[i] == init[i];
      }
    }
  }

  // ----- What that means for the disk -----

  ghost predicate Inside(inner: Entry, outer: Entry) {
    outer.start <= inner.start && inner.start + inner.size <= outer.start + outer.size
  }

  /** The first sector after the last logical, counted from the start of the extended partition. */
  function Reach(mib: nat, ls: seq<Entry>): nat
    requires mib > 0
  {
    if ls == [] then 0 else mib + Span(mib, ls, |ls| - 1) + ls[|ls| - 1].size
  }

  lemma StrungInside(mib: nat, ext: Entry, ls: seq<Entry>)
    requires mib > 0 && IsPow2(mib) && Strung(mib, ext, ls)
    ensures (forall i :: 0 <= i < |ls| ==> Inside(ls[i], ext)) <==> Reach(mib, ls) <= ext.size
    ensures Reach(mib, ls) <= Span(mib, ls, |ls|)
  {
    if ls != [] {
      var n := |ls| - 1;
      AlignUpBounds(ls[n].size, mib);
      assert StrungAt(mib, ext, ls, n);
      forall i | 0 <= i < |ls| ensures Reach(mib, ls) <= ext.size ==> Inside(ls[i], ext) {
        assert StrungAt(mib, ext, ls, i);
        if i < n {
          SpanGrows(mib, ls, i, n);
        }
      }
    }
  }

  /** The logicals lie inside the extended partition exactly when it reaches the end of the last one;
      room for every gap and rounded size is always enough. */
  lemma LogicalsInside(g: Geometry, actions: seq<Action>)
    requires g.Valid() && OffsetFree(actions) && OneExtended(actions) && DosLayout(g, actions).Ok?
    requires DosLayout(g, actions).value.extended.Some?
    ensures var t := DosLayout(g, actions).value; var ls, ext := Logicals(t.entries), t.extended.value;
      && ((forall l :: l in ls ==> Inside(l, ext)) <==> Reach(g.mib, ls) <= ext.size)
      && (Span(g.mib, ls, |ls|) <= ext.size ==> forall l :: l in ls ==> Inside(l, ext))
  {
    OneMibIsPow2(g.sectorBytes);
    LayoutSound(g, actions);
    var t := DosLayout(g, actions).value;
    StrungInside(g.mib, t.extended.value, Logicals(t.entries));
  }

  lemma StrungApart(mib: nat, ext: Entry, ls: seq<Entry>, i: nat, j: nat)
    requires mib > 0 && IsPow2(mib) && Strung(mib, ext, ls) && i < j < |ls|
    ensures ls[i].start + ls[i].size + mib <= ls[j].start
  {
    assert StrungAt(mib, ext, ls, i) && StrungAt(mib, ext, ls, j);
    SpanGrows(mib, ls, i, j);
  }

  lemma StrungNumber(mib: nat, t: Table, n: nat)
    requires mib > 0 && Sound(mib, t) && n < |Logicals(t.entries)|
    ensures t.extended.Some? && Logicals(t.entries)[n].number == 5 + n && Logicals(t.entries)[n].start % mib == 0
  {
    var ls := Logicals(t.entries);
    assert t.extended.Some? && StrungAt(mib, t.extended.value, ls, n);
    assert ls[n] in ls;
    FilterMembers(t.entries, ls[n]);
    var i :| 0 <= i < |t.entries| && t.entries[i] == ls[n];
  }

  lemma LogicalsNumbered(mib: nat, t: Table)
    requires mib > 0 && Sound(mib, t)
    ensures var ls := Logicals(t.entries);
      forall n :: 0 <= n < |ls| ==> ls[n].number == 5 + n && ls[n].start % mib == 0
  {
    forall n | 0 <= n < |Logicals(t.entries)|
      ensures Logicals(t.entries)[n].number == 5 + n && Logicals(t.entries)[n].start % mib == 0
    {
      StrungNumber(mib, t, n);
    }
  }

  lemma LogicalsSpaced(mib: nat, t: Table)
    requires mib > 0 && IsPow2(mib) && Sound(mib, t)
    ensures var ls := Logicals(t.entries);
      forall i, j :: 0 <= i < j < |ls| ==> ls[i].start + ls[i].size + mib <= ls[j].start
  {
    var ls := Logicals(t.entries);
    forall i, j | 0 <= i < j < |ls| ensures ls[i].start + ls[i].size + mib <= ls[j].start {
      StrungNumber(mib, t, i);
      StrungApart(mib, t.extended.value, ls, i, j);
    }
  }

  /** Logicals are numbered 5, 6, 7, ... in order, each at least a MiB past the one before it. */
  lemma LogicalsApart(g: Geometry, actions: seq<Action>)
    requires g.Valid() && OffsetFree(actions) && OneExtended(actions) && DosLayout(g, actions).Ok?
    ensures var ls := Logicals(DosLayout(g, actions).value.entries);
      && (forall n :: 0 <= n < |ls| ==> ls[n].number == 5 + n && ls[n].start % g.mib == 0)
      && (forall i, j :: 0 <= i < j < |ls| ==> ls[i].start + ls[i].size + g.mib <= ls[j].start)
  {
    OneMibIsPow2(g.sectorBytes);
    LayoutSound(g, actions);
    LogicalsNumbered(g.mib, DosLayout(g, actions).value);
    LogicalsSpaced(g.mib, DosLayout(g, actions).value);
  }

  /** Members of an increasing list come one after the other, whichever is first. */
  lemma IncreasingDisjoint(es: seq<Entry>, a: Entry, b: Entry)
    requires Increasing(es) && a in es && b in es && a != b
    ensures Disjoint(a, b)
  {
    var i, j :| 0 <= i < |es| && 0 <= j < |es| && es[i] == a && es[j] == b;
  }

  /** Primaries, the extended partition among them, never overlap; and if the extended partition holds its
      logicals, no two partitions other than the extended one overlap. */
  lemma DosDisjoint(g: Geometry, actions: seq<Action>, a: Entry, b: Entry)
    requires g.Valid() && OffsetFree(actions) && OneExtended(actions) && DosLayout(g, actions).Ok?
    requires var t := DosLayout(g, actions).value; a in t.entries && b in t.entries && a != b
    ensures a.number <= 4 && b.number <= 4 ==> Disjoint(a, b)
    ensures var t := DosLayout(g, actions).value;
      !a.extended && !b.extended
      && (t.extended.Some? ==> forall l :: l in Logicals(t.entries) ==> Inside(l, t.extended.value))
      ==> Disjoint(a, b)
  {
    LayoutSound(g, actions);
    var t := DosLayout(g, actions).value;
    var ls := Logicals(t.entries);
    FilterMembers(t.entries, a);
    FilterMembers(t.entries, b);
    if a.number <= 4 && b.number <= 4 {
      IncreasingDisjoint(Primaries(t.entries), a, b);
    } else if a.number > 4 && b.number > 4 {
      LogicalsApart(g, actions);
      IncreasingDisjoint(ls, a, b);
    } else {
      assert t.extended.Some?;
      FilterMembers(t.entries, t.extended.value);
      var p := if a.number <= 4 then a else b;
      if !p.extended {
        IncreasingDisjoint(Primaries(t.entries), p, t.extended.value);
      }
    }
  }
}
