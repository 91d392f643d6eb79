/** The GPT and DOS partition tables of storage version 2: where each added partition goes. */
module PartTables {
  import opened Wrappers
  import opened Alignment

  /** A partition action; `offset` and `size` are in bytes. */
  datatype Action = Action(number: Option<nat>, flag: Option<string>, offset: Option<nat>, size: nat)

  /** An entry of the table; `start` and `size` are in sectors. */
  datatype Entry = Entry(number: nat, start: nat, size: nat, extended: bool)

  datatype Error = ZeroSectorBytes | DoesNotDivideMib | NoExtended | BadPrimaryNumber(number: nat)

  /** The constructor's check: one MiB in sectors, or the reason to refuse the sector size. */
  function OneMibSectors(sectorBytes: nat): Result<nat, Error> {
    if sectorBytes == 0 then Err(ZeroSectorBytes)
    else if ONE_MIB_BYTES % sectorBytes != 0 then Err(DoesNotDivideMib)
    else Ok(ONE_MIB_BYTES / sectorBytes)
  }

  /** A sector size that passes the check makes one MiB a power of two of sectors. */
  lemma OneMibIsPow2(sectorBytes: nat)
    requires OneMibSectors(sectorBytes).Ok?
    ensures OneMibSectors(sectorBytes).value > 0 && IsPow2(OneMibSectors(sectorBytes).value) && IsPow2(sectorBytes)
  {
    var m := ONE_MIB_BYTES / sectorBytes;
    assert ONE_MIB_BYTES == m * sectorBytes;
    assert Pow2(10) == 1024;
    assert Pow2(20) == 1048576 by {
      assert Pow2(15) == 32768;
    }
    assert m * sectorBytes == sectorBytes * m;
    FactorOfPow2(m, sectorBytes, 20);
    FactorOfPow2(sectorBytes, m, 20);
  }

  /** What both tables know about sector sizes. */
  datatype Geometry = Geometry(sectorBytes: nat, mib: nat) {
    ghost predicate Valid() { OneMibSectors(sectorBytes) == Ok(mib) && mib > 0 }

    function Sectors(bytes: nat): nat
      requires sectorBytes > 0
    {
      bytes / sectorBytes
    }
  }

  predicate OffsetFree(actions: seq<Action>) { forall a :: a in actions ==> a.offset == None }

  // ----- GPT -----

  function GptEntry(g: Geometry, entries: seq<Entry>, a: Action): Entry
    requires g.sectorBytes > 0 && g.mib > 0
  {
    Entry(if a.number.Some? then a.number.value else |entries| + 1,
          if a.offset.Some? then g.Sectors(a.offset.value)
          else if entries != [] then AlignUp(entries[|entries| - 1].start + entries[|entries| - 1].size, g.mib)
          else g.mib,
          g.Sectors(a.size), false)
  }

  function GptLayout(g: Geometry, actions: seq<Action>): (r: seq<Entry>)
    requires g.sectorBytes > 0 && g.mib > 0
    ensures |r| == |actions|
  {
    if actions == [] then []
    else
      var init := GptLayout(g, actions[..|actions| - 1]);
      init + [GptEntry(g, init, actions[|actions| - 1])]
  }

  class GptTable {
    const g: Geometry
    var entries: seq<Entry>

    constructor (sectorBytes: nat)
      requires OneMibSectors(sectorBytes).Ok?
      ensures g.Valid() && g.sectorBytes == sectorBytes && entries == []
    {
      OneMibIsPow2(sectorBytes);
      g := Geometry(sectorBytes, OneMibSectors(sectorBytes).value);
      entries := [];
    }

    method Add(a: Action) returns (entry: Entry)
      requires g.Valid()
      modifies this
      ensures entry == GptEntry(g, old(entries), a) && entries == old(entries) + [entry]
    {
      var number := if a.number.Some? then a.number.value else |entries| + 1;
      var start := g.mib;
      if a.offset.Some? {
        start := g.Sectors(a.offset.value);
      } else if entries != [] {
        var prev := entries[|entries| - 1];
        start := AlignUp(prev.start + prev.size, g.mib);
      }
      entry := Entry(number, start, g.Sectors(a.size), false);
      entries := entries + [entry];
    }
  }

  /** The room the first `n` entries take, each rounded up to whole MiBs. */
  function Rounded(mib: nat, entries: seq<Entry>, n: nat): nat
    requires mib > 0 && n <= |entries|
  {
    if n == 0 then 0 else Rounded(mib, entries, n - 1) + AlignUp(entries[n - 1].size, mib)
  }

  lemma {:induction false} RoundedPrefix(mib: nat, a: seq<Entry>, b: seq<Entry>, n: nat)
    requires mib > 0 && n <= |a|
    ensures Rounded(mib, a + b, n) == Rounded(mib, a, n)
  {
    if n > 0 {
      RoundedPrefix(mib, a, b, n - 1);
    }
  }

  lemma NextAligned(mib: nat, start: nat, size: nat)
    requires mib > 0 && IsPow2(mib) && start % mib == 0
    ensures AlignUp(start + size, mib) == start + AlignUp(size, mib) && (start + AlignUp(size, mib)) % mib == 0
  {
    AlignUpFrom(start, size, mib);
    AlignUpBounds(start + size, mib);
  }

  /** Entry `n` starts after one MiB and the rounded sizes of the entries before it, on a MiB boundary. */
  ghost predicate StartsRight(mib: nat, es: seq<Entry>, n: nat)
    requires mib > 0 && n < |es|
  {
    es[n].start == mib + Rounded(mib, es, n) && es[n].start % mib == 0
  }

  lemma StartsRightStill(mib: nat, es: seq<Entry>, e: Entry, n: nat)
    requires mib > 0 && n < |es| && StartsRight(mib, es, n)
    ensures StartsRight(mib, es + [e], n)
  {
    RoundedPrefix(mib, es, [e], n);
  }

  lemma NextStartsRight(mib: nat, es: seq<Entry>, e: Entry)
    requires mib > 0 && IsPow2(mib) && (es != [] ==> StartsRight(mib, es, |es| - 1))
    requires e.start == if es == [] then mib else AlignUp(es[|es| - 1].start + es[|es| - 1].size, mib)
    ensures StartsRight(mib, es + [e], |es|)
  {
    RoundedPrefix(mib, es, [e], |es|);
    if es == [] {
      SelfMultiple(mib);
    } else {
      NextAligned(mib, es[|es| - 1].start, es[|es| - 1].size);
    }
  }

  /** Without offsets every entry starts right, and has its size in sectors. */
  lemma {:induction false} GptStarts(g: Geometry, actions: seq<Action>, n: nat)
    requires g.Valid() && OffsetFree(actions) && n < |actions|
    ensures StartsRight(g.mib, GptLayout(g, actions), n) && GptLayout(g, actions)[n].size == g.Sectors(actions[n].size)
  {
    var init, last := actions[..|actions| - 1], |actions| - 1;
    var es, e := GptLayout(g, init), GptLayout(g, actions)[last];
    assert OffsetFree(init) by {
      assert forall a :: a in init ==> a in actions;
    }
    if n < last {
      GptStarts(g, init, n);
      StartsRightStill(g.mib, es, e, n);
    } else {
      if last > 0 {
        GptStarts(g, init, last - 1);
      }
      OneMibIsPow2(g.sectorBytes);
      assert actions[last] in actions;
      NextStartsRight(g.mib, es, e);
    }
  }

  lemma {:induction false} RoundedGrows(mib: nat, entries: seq<Entry>, i: nat, j: nat)
    requires mib > 0 && IsPow2(mib) && i < j <= |entries|
    ensures Rounded(mib, entries, i) + entries[i].size <= Rounded(mib, entries, j)
    decreases j
  {
    AlignUpBounds(entries[j - 1].size, mib);
    if i < j - 1 {
      RoundedGrows(mib, entries, i, j - 1);
    }
  }

  ghost predicate Disjoint(a: Entry, b: Entry) {
    a.start + a.size <= b.start || b.start + b.size <= a.start
  }

  /** Offset-free GPT partitions are disjoint, and less than a MiB is lost between neighbours. */
  lemma GptDisjoint(g: Geometry, actions: seq<Action>)
    requires g.Valid() && OffsetFree(actions)
    ensures var es := GptLayout(g, actions);
      && (forall i, j :: 0 <= i < j < |es| ==> es[i].start + es[i].size <= es[j].start)
      && (forall i :: 0 < i < |es| ==> es[i].start - (es[i - 1].start + es[i - 1].size) < g.mib)
  {
    OneMibIsPow2(g.sectorBytes);
    var es := GptLayout(g, actions);
    forall i, j | 0 <= i < j < |es| ensures es[i].start + es[i].size <= es[j].start {
      GptStarts(g, actions, i);
      GptStarts(g, actions, j);
      RoundedGrows(g.mib, es, i, j);
    }
    forall i | 0 < i < |es| ensures es[i].start - (es[i - 1].start + es[i - 1].size) < g.mib {
      GptStarts(g, actions, i - 1);
      GptStarts(g, actions, i);
      AlignUpBounds(es[i - 1].size, g.mib);
    }
  }
}
