/** Converting one-line APT sources to deb822 stanzas: flatten, merge by suite, merge deb with deb-src. */
module AptConvert {
  import opened Sorting
  import opened Wrappers

  /** One line of a sources.list file, as the line parser describes it. */
  datatype SourceEntry =
    SourceEntry(invalid: bool, disabled: bool, typ: string, uri: string, dist: string, comps: seq<string>)

  /** The key of the index; also names a single source: one type at one URI for one suite, on or off. */
  datatype Key = Key(disabled: bool, typ: string, uri: string, dist: string)

  datatype Stanza = Stanza(enabled: bool, types: set<string>, uris: set<string>, suites: set<string>,
                           comps: set<string>, signedBy: Option<string>)

  function Without(ks: seq<Key>, k: Key): seq<Key> {
    if ks == [] then [] else (if ks[0] == k then [] else [ks[0]]) + Without(ks[1..], k)
  }

  /** The index is a dict: `order` is its iteration order. */
  datatype Index = Index(order: seq<Key>, at: map<Key, Stanza>) {
    ghost predicate Valid() {
      NoDup(order) && forall k :: k in order <==> k in at
    }

    function Set(k: Key, st: Stanza): Index {
      Index(if k in at then order else order + [k], at[k := st])
    }

    /** `del index[k]`, which needs the key to be there. */
    function Delete(k: Key): Index
      requires k in at
    {
      Index(Without(order, k), at - {k})
    }
  }

  const EMPTY_INDEX := Index([], map[])

  const KEYRING := "/usr/share/keyrings/ubuntu-archive-keyring.gpg"

  function ToSet(xs: seq<string>): set<string> { set x | x in xs }

  // ----- Meaning -----

  /** The line counts: it is valid and not a disabled deb-src line. */
  predicate Survives(e: SourceEntry) {
    !e.invalid && !(e.typ == "deb-src" && e.disabled)
  }

  function KeyOf(e: SourceEntry): Key { Key(e.disabled, e.typ, e.uri, e.dist) }

  /** Some surviving line of `es` speaks of the source `q`. */
  ghost predicate Listed(es: seq<SourceEntry>, q: Key) {
    exists i :: 0 <= i < |es| && Survives(es[i]) && KeyOf(es[i]) == q
  }

  /** The components all surviving lines about `q` ask for. */
  ghost function CompsOf(es: seq<SourceEntry>, q: Key): set<string> {
    set i, c | 0 <= i < |es| && Survives(es[i]) && KeyOf(es[i]) == q && c in es[i].comps :: c
  }

  /** The stanza speaks of the source `q`. */
  ghost predicate Covers(st: Stanza, q: Key) {
    st.enabled == !q.disabled && q.typ in st.types && q.uri in st.uris && q.dist in st.suites
  }

  ghost predicate Means(ix: Index, q: Key, comps: set<string>) {
    exists k :: k in ix.at && Covers(ix.at[k], q) && ix.at[k].comps == comps
  }

  ghost predicate SameMeaning(a: Index, b: Index) {
    forall q, c :: Means(a, q, c) <==> Means(b, q, c)
  }

  // ----- What every pass keeps -----

  predicate SamePrefix(a: Key, b: Key) { a.(dist := b.dist) == b }

  ghost predicate Keyed(k: Key, st: Stanza) {
    && st.enabled == !k.disabled && st.uris == {k.uri} && k.dist in st.suites && st.signedBy == None
    && (st.types == {k.typ} || (k.typ == "deb" && st.types == {"deb", "deb-src"}))
  }

  ghost predicate Coherent(ix: Index) {
    && ix.Valid()
    && (forall k :: k in ix.at ==> Keyed(k, ix.at[k]))
    && (forall a, b :: a in ix.at && b in ix.at && a != b && SamePrefix(a, b) ==> ix.at[a].suites !! ix.at[b].suites)
  }

  /** Deb and deb-src are not yet merged. */
  ghost predicate Plain(ix: Index) {
    forall k :: k in ix.at ==> ix.at[k].types == {k.typ}
  }

  /** No two stanzas could still be merged by suite. */
  ghost predicate SuitesMerged(ix: Index) {
    forall a, b :: a in ix.at && b in ix.at && a != b && SamePrefix(a, b) ==> ix.at[a].comps != ix.at[b].comps
  }

  predicate CanCombine(se: Stanza, be: Stanza) {
    se.enabled == be.enabled && se.uris == be.uris && se.suites == be.suites && se.comps == be.comps
  }

  /** No deb-src stanza has a deb stanza it could still be merged into. */
  ghost predicate TypesMerged(ix: Index) {
    forall s, b :: s in ix.at && b in ix.at && s.typ == "deb-src" && b.typ == "deb" ==> !CanCombine(ix.at[s], ix.at[b])
  }

  lemma {:induction false} WithoutFacts(ks: seq<Key>, k: Key)
    requires NoDup(ks)
    ensures NoDup(Without(ks, k))
    ensures forall x :: x in Without(ks, k) <==> x in ks && x != k
  {
    if ks != [] {
      WithoutFacts(ks[1..], k);
      assert ks == [ks[0]] + ks[1..];
      assert ks[0] !in ks[1..];
      var r := Without(ks[1..], k);
      if ks[0] != k {
        assert ks[0] !in r;
        assert NoDup([ks[0]] + r);
      }
    }
  }

  lemma DeleteValid(ix: Index, k: Key)
    requires ix.Valid() && k in ix.at
    ensures ix.Delete(k).Valid()
  {
    WithoutFacts(ix.order, k);
  }

  // ----- The order of the stanzas -----

  ghost predicate RisingKeys(ks: seq<Key>, pos: Key -> nat) {
    forall i, j :: 0 <= i < j < |ks| ==> pos(ks[i]) < pos(ks[j])
  }

  /** The keys of `b` come in the order they have in `a`. */
  ghost predicate KeepsOrder(a: Index, b: Index) {
    forall pos :: RisingKeys(a.order, pos) ==> RisingKeys(b.order, pos)
  }

  lemma {:induction false} WithoutRising(ks: seq<Key>, k: Key, pos: Key -> nat)
    requires RisingKeys(ks, pos)
    ensures RisingKeys(Without(ks, k), pos)
    ensures forall x :: x in Without(ks, k) ==> x in ks
  {
    if ks != [] {
      WithoutRising(ks[1..], k, pos);
      var r := Without(ks[1..], k);
      forall x | x in r ensures pos(ks[0]) < pos(x) {
        var i :| 0 <= i < |ks[1..]| && ks[1..][i] == x;
        assert ks[i + 1] == x;
      }
    }
  }

  /** Changing the stanza of one key and deleting another leaves the others in order. */
  lemma OrderKept(ix: Index, at: Key, st: Stanza, gone: Key)
    requires at in ix.at && gone in ix.at
    ensures KeepsOrder(ix, ix.Set(at, st).Delete(gone))
  {
    forall pos | RisingKeys(ix.order, pos) ensures RisingKeys(ix.Set(at, st).Delete(gone).order, pos) {
      WithoutRising(ix.order, gone, pos);
    }
  }

  /** The first surviving line that speaks of the source, if any does. */
  ghost function FirstLine(es: seq<SourceEntry>, k: Key): (n: nat)
    ensures n <= |es| && (n < |es| ==> Survives(es[n]) && KeyOf(es[n]) == k)
    ensures forall i :: 0 <= i < n ==> !(Survives(es[i]) && KeyOf(es[i]) == k)
    ensures Listed(es, k) ==> n < |es|
  {
    if es == [] then 0
    else if Survives(es[0]) && KeyOf(es[0]) == k then 0
    else
      var n := FirstLine(es[1..], k);
      assert forall i :: 0 < i < |es| ==> es[i] == es[1..][i - 1];
      n + 1
  }

  /** Sources by their first lines. */
  ghost function FileOrder(es: seq<SourceEntry>): Key -> nat { k => FirstLine(es, k) }

  // ----- Pass 1: one stanza per source -----

  ghost predicate Flat(ix: Index, es: seq<SourceEntry>) {
    && ix.Valid()
    && (forall k :: k in ix.at <==> Listed(es, k))
    && (forall k :: k in ix.at ==> ix.at[k] == Stanza(!k.disabled, {k.typ}, {k.uri}, {k.dist}, CompsOf(es, k), None))
  }

  /** What the flattening pass stores for a surviving line. */
  function Absorb(ix: Index, e: SourceEntry): Index {
    var k := KeyOf(e);
    if k in ix.at then ix.Set(k, ix.at[k].(comps := ix.at[k].comps + ToSet(e.comps)))
    else ix.Set(k, Stanza(!e.disabled, {e.typ}, {e.uri}, {e.dist}, ToSet(e.comps), None))
  }

  lemma ListedSnoc(es: seq<SourceEntry>, e: SourceEntry, q: Key)
    ensures Listed(es + [e], q) <==> Listed(es, q) || (Survives(e) && KeyOf(e) == q)
  {
    var all := es + [e];
    if i :| 0 <= i < |es| && Survives(es[i]) && KeyOf(es[i]) == q {
      assert all[i] == es[i];
    }
    assert all[|es|] == e;
  }

  lemma CompsSnoc(es: seq<SourceEntry>, e: SourceEntry, q: Key)
    ensures CompsOf(es + [e], q) == CompsOf(es, q) + if Survives(e) && KeyOf(e) == q then ToSet(e.comps) else {}
  {
    var all := es + [e];
    assert all[|es|] == e && forall i :: 0 <= i < |es| ==> all[i] == es[i];
    forall c ensures c in CompsOf(all, q) <==> c in CompsOf(es, q) || (Survives(e) && KeyOf(e) == q && c in e.comps) {
      if c in CompsOf(es, q) {
        var i :| 0 <= i < |es| && Survives(es[i]) && KeyOf(es[i]) == q && c in es[i].comps;
        assert all[i] == es[i];
      }
    }
  }

  lemma FlatStep(ix: Index, es: seq<SourceEntry>, e: SourceEntry)
    requires Flat(ix, es)
    ensures Flat(if Survives(e) then Absorb(ix, e) else ix, es + [e])
  {
    var all := es + [e];
    var r := if Survives(e) then Absorb(ix, e) else ix;
    assert r.Valid();
    forall q ensures q in r.at <==> Listed(all, q) {
      ListedSnoc(es, e, q);
    }
    forall q | q in r.at ensures r.at[q] == Stanza(!q.disabled, {q.typ}, {q.uri}, {q.dist}, CompsOf(all, q), None) {
      ListedSnoc(es, e, q);
      CompsSnoc(es, e, q);
      if !Listed(es, q) {
        assert CompsOf(es, q) == {};
      }
    }
  }

  /** A line about a source met before leaves the order; one about a new source adds it at the end. */
  lemma OrderStep(ix: Index, es: seq<SourceEntry>, i: nat)
    requires i < |es| && Survives(es[i]) && Flat(ix, es[..i]) && RisingKeys(ix.order, FileOrder(es))
    ensures RisingKeys(Absorb(ix, es[i]).order, FileOrder(es))
  {
    var k := KeyOf(es[i]);
    if k !in ix.at {
      forall j | 0 <= j < |ix.order| ensures FirstLine(es, ix.order[j]) < i {
        assert ix.order[j] in ix.order;
        var l :| 0 <= l < i && Survives(es[..i][l]) && KeyOf(es[..i][l]) == ix.order[j];
        assert es[..i][l] == es[l];
      }
      forall j | 0 <= j < i ensures !(Survives(es[j]) && KeyOf(es[j]) == k) {
        assert es[..i][j] == es[j];
      }
    }
  }

  /** The first `i` lines are flattened. */
  ghost predicate FlatUpTo(ix: Index, es: seq<SourceEntry>, i: nat)
    requires i <= |es|
  {
    Flat(ix, es[..i]) && RisingKeys(ix.order, FileOrder(es))
  }

  lemma OneMoreFlat(ix: Index, es: seq<SourceEntry>, i: nat)
    requires i < |es| && FlatUpTo(ix, es, i)
    ensures FlatUpTo(if Survives(es[i]) then Absorb(ix, es[i]) else ix, es, i + 1)
  {
    FlatStep(ix, es[..i], es[i]);
    assert es[..i] + [es[i]] == es[..i + 1];
    if Survives(es[i]) {
      OrderStep(ix, es, i);
    }
  }

  method Flatten(es: seq<SourceEntry>) returns (ix: Index)
    ensures Flat(ix, es) && RisingKeys(ix.order, FileOrder(es))
  {
    ix := EMPTY_INDEX;
    for i := 0 to |es|
      invariant FlatUpTo(ix, es, i)
    {
      var e := es[i];
      OneMoreFlat(ix, es, i);
      if !e.invalid {
        if !(e.typ == "deb-src" && e.disabled) {
          ix := Absorb(ix, e);
        }
      }
    }
    assert es[..|es|] == es;
  }

  // ----- Pass 2: stanzas with equal components are merged into the stanza of another suite -----

  /** One visit of the inner loop: the stanza at `k`, against the stanza for `suite`. */
  function MergeSuite(ix: Index, k: Key, suite: string): Index
    requires k in ix.at && k.dist != suite
  {
    var ek := k.(dist := suite);
    if ek in ix.at && ix.at[ek].comps == ix.at[k].comps then
      ix.Set(ek, ix.at[ek].(suites := ix.at[ek].suites + ix.at[k].suites)).Delete(k)
    else ix
  }

  lemma MergeSuiteCoherent(ix: Index, k: Key, suite: string)
    requires Coherent(ix) && Plain(ix) && k in ix.at && k.dist != suite
    ensures Coherent(MergeSuite(ix, k, suite)) && Plain(MergeSuite(ix, k, suite))
  {
    var ek := k.(dist := suite);
    if ek in ix.at && ix.at[ek].comps == ix.at[k].comps {
      var mid := ix.Set(ek, ix.at[ek].(suites := ix.at[ek].suites + ix.at[k].suites));
      DeleteValid(mid, k);
      var r := mid.Delete(k);
      assert SamePrefix(k, ek);
      forall a, b | a in r.at && b in r.at && a != b && SamePrefix(a, b) ensures r.at[a].suites !! r.at[b].suites {
        assert a != k && b != k;
        assert ix.at[a].suites !! ix.at[b].suites;
        if a == ek {
          assert SamePrefix(k, b);
        } else if b == ek {
          assert SamePrefix(a, k);
        }
      }
      forall x | x in r.at ensures Keyed(x, r.at[x]) && r.at[x].types == {x.typ} {
        assert x in ix.at && Keyed(x, ix.at[x]);
      }
    }
  }

  lemma MergeSuiteMeaning(ix: Index, k: Key, suite: string)
    requires Coherent(ix) && Plain(ix) && k in ix.at && k.dist != suite
    ensures SameMeaning(ix, MergeSuite(ix, k, suite))
  {
    var ek := k.(dist := suite);
    var r := MergeSuite(ix, k, suite);
    if ek in ix.at && ix.at[ek].comps == ix.at[k].comps {
      assert Keyed(k, ix.at[k]) && Keyed(ek, ix.at[ek]);
      forall q, c ensures Means(ix, q, c) <==> Means(r, q, c) {
        if x :| x in ix.at && Covers(ix.at[x], q) && ix.at[x].comps == c {
          var y := if x == k then ek else x;
          assert y in r.at && Covers(r.at[y], q) && r.at[y].comps == c;
        }
        if y :| y in r.at && Covers(r.at[y], q) && r.at[y].comps == c {
          var x := if y == ek && q.dist in ix.at[k].suites then k else y;
          assert x in ix.at && Covers(ix.at[x], q) && ix.at[x].comps == c;
        }
      }
    }
  }

  /** `r` came out of `ix` by merging suites: nothing else changed. */
  ghost predicate MergedFrom(ix: Index, r: Index) {
    && Coherent(r) && Plain(r) && SameMeaning(ix, r) && KeepsOrder(ix, r)
    && r.at.Keys <= ix.at.Keys && (forall x :: x in r.at ==> r.at[x].comps == ix.at[x].comps)
  }

  lemma MergeSuiteKeeps(ix: Index, k: Key, suite: string)
    requires Coherent(ix) && Plain(ix) && k in ix.at && k.dist != suite
    ensures var r := MergeSuite(ix, k, suite);
      && MergedFrom(ix, r) && ix.at.Keys - {k} <= r.at.Keys
      && (k in r.at ==> k.(dist := suite) !in r.at || r.at[k.(dist := suite)].comps != r.at[k].comps)
  {
    MergeSuiteCoherent(ix, k, suite);
    MergeSuiteMeaning(ix, k, suite);
    var ek := k.(dist := suite);
    if ek in ix.at {
      OrderKept(ix, ek, ix.at[ek].(suites := ix.at[ek].suites + ix.at[k].suites), k);
    }
  }

  /** The keys of the index whose suite is not `suite`, in order. */
  function OtherSuites(ks: seq<Key>, suite: string): seq<Key> {
    if ks == [] then [] else (if ks[0].dist != suite then [ks[0]] else []) + OtherSuites(ks[1..], suite)
  }

  lemma {:induction false} OtherSuitesFacts(ks: seq<Key>, suite: string)
    requires NoDup(ks)
    ensures NoDup(OtherSuites(ks, suite))
    ensures forall k :: k in OtherSuites(ks, suite) <==> k in ks && k.dist != suite
  {
    if ks != [] {
      OtherSuitesFacts(ks[1..], suite);
      assert ks == [ks[0]] + ks[1..] && ks[0] !in ks[1..];
      var r := OtherSuites(ks[1..], suite);
      assert ks[0] !in r;
      assert NoDup([ks[0]] + r);
    }
  }

  /** Nothing is left to merge into the stanza for `suite`. */
  ghost predicate Settled(ix: Index, suite: string) {
    forall k :: k in ix.at && k.dist != suite && k.(dist := suite) in ix.at ==>
      ix.at[k.(dist := suite)].comps != ix.at[k].comps
  }

  lemma MergedFromTransitive(a: Index, b: Index, c: Index)
    requires MergedFrom(a, b) && MergedFrom(b, c)
    ensures MergedFrom(a, c)
  {
  }

  lemma SettledStays(a: Index, b: Index, suite: string)
    requires MergedFrom(a, b) && Settled(a, suite)
    ensures Settled(b, suite)
  {
  }

  /** The stanza at `k` is gone, or there is no stanza for `suite` with the same components. */
  ghost predicate Separate(ix: Index, k: Key, suite: string) {
    k in ix.at && k.(dist := suite) in ix.at ==> ix.at[k.(dist := suite)].comps != ix.at[k].comps
  }

  /** After `m` visits of the snapshot `others`: the rest is untouched, and what was visited cannot be merged
      any more. */
  ghost predicate VisitedUpTo(ix: Index, r: Index, others: seq<Key>, suite: string, m: nat)
    requires m <= |others|
  {
    && MergedFrom(ix, r)
    && (forall j :: m <= j < |others| ==> others[j] in r.at)
    && (forall j :: 0 <= j < m ==> Separate(r, others[j], suite))
  }

  lemma SeparateStays(a: Index, b: Index, k: Key, suite: string)
    requires MergedFrom(a, b) && Separate(a, k, suite)
    ensures Separate(b, k, suite)
  {
  }

  lemma VisitedStep(ix: Index, before: Index, others: seq<Key>, suite: string, m: nat)
    requires NoDup(others) && m < |others| && VisitedUpTo(ix, before, others, suite, m) && others[m].dist != suite
    ensures VisitedUpTo(ix, MergeSuite(before, others[m], suite), others, suite, m + 1)
  {
    var r := MergeSuite(before, others[m], suite);
    MergeSuiteKeeps(before, others[m], suite);
    MergedFromTransitive(ix, before, r);
    forall j | m < j < |others| ensures others[j] in r.at {
      assert others[j] != others[m];
    }
    forall j | 0 <= j < m ensures Separate(r, others[j], suite) {
      SeparateStays(before, r, others[j], suite);
    }
  }

  lemma AllVisited(ix: Index, r: Index, others: seq<Key>, suite: string)
    requires ix.Valid() && VisitedUpTo(ix, r, others, suite, |others|)
    requires forall k :: k in others <==> k in ix.order && k.dist != suite
    ensures Settled(r, suite)
  {
    forall k | k in r.at && k.dist != suite ensures Separate(r, k, suite) {
      assert k in ix.at && k in ix.order;
      assert k in others;
    }
  }

  method MergeIntoSuite(ix: Index, suite: string) returns (r: Index)
    requires Coherent(ix) && Plain(ix)
    ensures MergedFrom(ix, r) && Settled(r, suite)
  {
    r := ix;
    var others := OtherSuites(ix.order, suite);
    OtherSuitesFacts(ix.order, suite);
    for m := 0 to |others|
      invariant VisitedUpTo(ix, r, others, suite, m)
    {
      assert others[m] in others;
      VisitedStep(ix, r, others, suite, m);
      r := MergeSuite(r, others[m], suite);
    }
    AllVisited(ix, r, others, suite);
  }

  lemma AllSettled(ix: Index, r: Index)
    requires ix.Valid() && r.at.Keys <= ix.at.Keys
    requires forall j :: 0 <= j < |ix.order| ==> Settled(r, ix.order[j].dist)
    ensures SuitesMerged(r)
  {
    forall a, b | a in r.at && b in r.at && a != b && SamePrefix(a, b) ensures r.at[a].comps != r.at[b].comps {
      assert a in ix.at && a in ix.order;
      assert Settled(r, a.dist);
      assert b.(dist := a.dist) == a;
    }
  }

  /** The first `i` keys of the snapshot are settled. */
  ghost predicate SettledUpTo(ix: Index, r: Index, i: nat)
    requires i <= |ix.order|
  {
    MergedFrom(ix, r) && forall j :: 0 <= j < i ==> Settled(r, ix.order[j].dist)
  }

  lemma SettledStep(ix: Index, before: Index, r: Index, i: nat)
    requires i < |ix.order| && SettledUpTo(ix, before, i) && MergedFrom(before, r) && Settled(r, ix.order[i].dist)
    ensures SettledUpTo(ix, r, i + 1)
  {
    assert MergedFrom(ix, r) by {
      MergedFromTransitive(ix, before, r);
    }
    forall j | 0 <= j < i + 1 ensures Settled(r, ix.order[j].dist) {
      if j < i {
        SettledStays(before, r, ix.order[j].dist);
      }
    }
  }

  method MergeSuites(ix: Index) returns (r: Index)
    requires Coherent(ix) && Plain(ix)
    ensures MergedFrom(ix, r) && SuitesMerged(r)
  {
    r := ix;
    for i := 0 to |ix.order|
      invariant SettledUpTo(ix, r, i)
    {
      ghost var before := r;
      r := MergeIntoSuite(r, ix.order[i].dist);
      SettledStep(ix, before, r, i);
    }
    AllSettled(ix, r);
  }

  // ----- Pass 3: a deb-src stanza is folded into the deb stanza it repeats -----

  ghost predicate TypesFrom(ix: Index, r: Index) {
    && Coherent(r) && SameMeaning(ix, r) && KeepsOrder(ix, r)
    && r.at.Keys <= ix.at.Keys && (forall x :: x in ix.at && x.typ != "deb-src" ==> x in r.at)
    && (forall x :: x in r.at ==> r.at[x] == ix.at[x].(types := r.at[x].types))
    && (forall x :: x in r.at && x.typ != "deb" ==> r.at[x] == ix.at[x])
  }

  lemma TypesFromTransitive(a: Index, b: Index, c: Index)
    requires TypesFrom(a, b) && TypesFrom(b, c)
    ensures TypesFrom(a, c)
  {
  }

  /** The deb stanza takes the deb-src stanza's place. */
  function Combine(ix: Index, ks: Key, kb: Key): Index
    requires ks in ix.at && kb in ix.at
  {
    ix.Set(kb, ix.at[kb].(types := {"deb", "deb-src"})).Delete(ks)
  }

  lemma CombineMeaning(ix: Index, ks: Key, kb: Key)
    requires Coherent(ix) && ks in ix.at && kb in ix.at && ks.typ == "deb-src" && kb.typ == "deb"
    requires CanCombine(ix.at[ks], ix.at[kb])
    ensures SameMeaning(ix, Combine(ix, ks, kb))
  {
    var r := Combine(ix, ks, kb);
    assert Keyed(ks, ix.at[ks]) && Keyed(kb, ix.at[kb]);
    forall q, c ensures Means(ix, q, c) <==> Means(r, q, c) {
      if x :| x in ix.at && Covers(ix.at[x], q) && ix.at[x].comps == c {
        var y := if x == ks then kb else x;
        assert y in r.at && Covers(r.at[y], q) && r.at[y].comps == c;
      }
      if y :| y in r.at && Covers(r.at[y], q) && r.at[y].comps == c {
        var x := if y == kb && q.typ == "deb-src" then ks else y;
        assert x in ix.at && Covers(ix.at[x], q) && ix.at[x].comps == c;
      }
    }
  }

  lemma CombineCoherent(ix: Index, ks: Key, kb: Key)
    requires Coherent(ix) && ks in ix.at && kb in ix.at && ks.typ == "deb-src" && kb.typ == "deb"
    ensures Coherent(Combine(ix, ks, kb))
  {
    DeleteValid(ix.Set(kb, ix.at[kb].(types := {"deb", "deb-src"})), ks);
  }

  /** The combination step keeps the meaning, whatever the deb stanza's types were. */
  lemma CombineKeeps(ix: Index, ks: Key, kb: Key)
    requires Coherent(ix) && ks in ix.at && kb in ix.at && ks.typ == "deb-src" && kb.typ == "deb"
    requires CanCombine(ix.at[ks], ix.at[kb])
    ensures TypesFrom(ix, Combine(ix, ks, kb))
  {
    assert SameMeaning(ix, Combine(ix, ks, kb)) by {
      CombineMeaning(ix, ks, kb);
    }
    assert Coherent(Combine(ix, ks, kb)) by {
      CombineCoherent(ix, ks, kb);
    }
    OrderKept(ix, kb, ix.at[kb].(types := {"deb", "deb-src"}), ks);
  }

  /** Two deb stanzas never both match one deb-src stanza, so it is deleted at most once. */
  lemma OneDebMatches(ix: Index, se: Stanza, a: Key, b: Key)
    requires Coherent(ix) && a in ix.at && b in ix.at && a.typ == b.typ
    requires CanCombine(se, ix.at[a]) && CanCombine(se, ix.at[b])
    ensures a == b
  {
    assert a.uri in ix.at[b].uris;
    assert a.dist in ix.at[a].suites && a.dist in ix.at[b].suites;
    assert SamePrefix(a, b);
  }

  function OfType(ks: seq<Key>, typ: string): seq<Key> {
    if ks == [] then [] else (if ks[0].typ == typ then [ks[0]] else []) + OfType(ks[1..], typ)
  }

  lemma {:induction false} OfTypeFacts(ks: seq<Key>, typ: string)
    requires NoDup(ks)
    ensures NoDup(OfType(ks, typ))
    ensures forall k :: k in OfType(ks, typ) <==> k in ks && k.typ == typ
  {
    if ks != [] {
      OfTypeFacts(ks[1..], typ);
      assert ks == [ks[0]] + ks[1..] && ks[0] !in ks[1..];
      var r := OfType(ks[1..], typ);
      assert ks[0] !in r;
      assert NoDup([ks[0]] + r);
    }
  }

  /** No deb stanza matches the deb-src stanza at `ks`, if that is still there. */
  ghost predicate Stuck(ix: Index, ks: Key) {
    ks in ix.at ==> forall b :: b in ix.at && b.typ == "deb" ==> !CanCombine(ix.at[ks], ix.at[b])
  }

  lemma StuckStays(a: Index, b: Index, ks: Key)
    requires TypesFrom(a, b) && Stuck(a, ks)
    ensures Stuck(b, ks)
  {
  }

  /** If the deb stanza at `m` matches, none before it does. */
  lemma NoneBefore(ix: Index, se: Stanza, debs: seq<Key>, m: nat)
    requires Coherent(ix) && NoDup(debs) && m < |debs|
    requires forall j :: 0 <= j < |debs| ==> debs[j] in ix.at && debs[j].typ == "deb"
    requires CanCombine(se, ix.at[debs[m]])
    ensures forall j :: 0 <= j < m ==> !CanCombine(se, ix.at[debs[j]])
  {
    forall j | 0 <= j < m ensures !CanCombine(se, ix.at[debs[j]]) {
      if CanCombine(se, ix.at[debs[j]]) {
        OneDebMatches(ix, se, debs[j], debs[m]);
      }
    }
  }

  method FoldSource(ix: Index, ks: Key) returns (r: Index)
    requires Coherent(ix) && ks in ix.at && ks.typ == "deb-src"
    ensures TypesFrom(ix, r) && r.at.Keys >= ix.at.Keys - {ks} && Stuck(r, ks)
  {
    r := ix;
    var se := ix.at[ks];
    var debs := OfType(ix.order, "deb");
    OfTypeFacts(ix.order, "deb");
    assert forall j :: 0 <= j < |debs| ==> debs[j] in debs;
    for m := 0 to |debs|
      invariant TypesFrom(ix, r) && r.at.Keys >= ix.at.Keys - {ks}
      invariant ks in r.at ==> r == ix && forall j :: 0 <= j < m ==> !CanCombine(se, ix.at[debs[j]])
      invariant ks !in r.at ==> exists j :: 0 <= j < m && CanCombine(se, ix.at[debs[j]])
    {
      var kb := debs[m];
      var be := r.at[kb];
      if CanCombine(se, be) {
        assert CanCombine(se, ix.at[kb]);
        NoneBefore(ix, se, debs, m);
        CombineKeeps(r, ks, kb);
        r := Combine(r, ks, kb);
      }
    }
    if ks in r.at {
      forall b | b in r.at && b.typ == "deb" ensures !CanCombine(r.at[ks], r.at[b]) {
        assert b in debs;
      }
    }
  }

  ghost predicate FoldedUpTo(ix: Index, r: Index, sources: seq<Key>, i: nat)
    requires i <= |sources|
  {
    && TypesFrom(ix, r)
    && (forall j :: i <= j < |sources| ==> sources[j] in r.at)
    && (forall j :: 0 <= j < i ==> Stuck(r, sources[j]))
  }

  lemma StuckSoFar(before: Index, r: Index, sources: seq<Key>, i: nat)
    requires i < |sources| && TypesFrom(before, r) && Stuck(r, sources[i])
    requires forall j :: 0 <= j < i ==> Stuck(before, sources[j])
    ensures forall j :: 0 <= j < i + 1 ==> Stuck(r, sources[j])
  {
    forall j | 0 <= j < i ensures Stuck(r, sources[j]) {
      StuckStays(before, r, sources[j]);
    }
  }

  lemma FoldedStep(ix: Index, before: Index, r: Index, sources: seq<Key>, i: nat)
    requires NoDup(sources) && i < |sources| && FoldedUpTo(ix, before, sources, i)
    requires TypesFrom(before, r) && r.at.Keys >= before.at.Keys - {sources[i]} && Stuck(r, sources[i])
    ensures FoldedUpTo(ix, r, sources, i + 1)
  {
    assert TypesFrom(ix, r) by {
      TypesFromTransitive(ix, before, r);
    }
    assert forall j :: 0 <= j < i + 1 ==> Stuck(r, sources[j]) by {
      StuckSoFar(before, r, sources, i);
    }
    forall j | i < j < |sources| ensures sources[j] in r.at {
      assert sources[j] != sources[i];
    }
  }

  lemma AllStuck(ix: Index, r: Index, sources: seq<Key>)
    requires ix.Valid() && r.at.Keys <= ix.at.Keys
    requires forall k :: k in sources <==> k in ix.order && k.typ == "deb-src"
    requires forall j :: 0 <= j < |sources| ==> Stuck(r, sources[j])
    ensures TypesMerged(r)
  {
    forall s | s in r.at && s.typ == "deb-src" ensures Stuck(r, s) {
      assert s in ix.at && s in ix.order;
      assert s in sources;
    }
  }

  method MergeTypes(ix: Index) returns (r: Index)
    requires Coherent(ix)
    ensures TypesFrom(ix, r) && TypesMerged(r)
  {
    r := ix;
    var sources := OfType(ix.order, "deb-src");
    OfTypeFacts(ix.order, "deb-src");
    assert forall j :: 0 <= j < |sources| ==> sources[j] in sources;
    for i := 0 to |sources|
      invariant FoldedUpTo(ix, r, sources, i)
    {
      assert sources[i] in sources;
      ghost var before := r;
      r := FoldSource(r, sources[i]);
      FoldedStep(ix, before, r, sources, i);
    }
    AllStuck(ix, r, sources);
  }

  // ----- The keyring field, and the whole conversion -----

  function Signed(st: Stanza, mirrors: set<string>): Stanza {
    if st.uris <= mirrors then st.(signedBy := Some(KEYRING)) else st
  }

  /** The stanzas of the index in order. */
  function StanzasOf(ix: Index): seq<Stanza>
    requires forall k :: k in ix.order ==> k in ix.at
  {
    seq(|ix.order|, i requires 0 <= i < |ix.order| => assert ix.order[i] in ix.order; ix.at[ix.order[i]])
  }

  ghost predicate StanzasMean(sts: seq<Stanza>, q: Key, comps: set<string>) {
    exists i :: 0 <= i < |sts| && Covers(sts[i], q) && sts[i].comps == comps
  }

  /** `a` and `b` differ in their suites alone, up to deb-src having been folded into one of them. */
  ghost predicate Mergeable(a: Stanza, b: Stanza) {
    && a.enabled == b.enabled && a.uris == b.uris && a.comps == b.comps
    && (a.types == b.types || ("deb" in a.types && "deb" in b.types))
  }

  /** `a` and `b` are the same but for their types and signature. */
  ghost predicate DifferInTypes(a: Stanza, b: Stanza) {
    a == b.(types := a.types, signedBy := a.signedBy)
  }

  lemma FlatMeaning(ix: Index, es: seq<SourceEntry>)
    requires Flat(ix, es)
    ensures Coherent(ix) && Plain(ix)
    ensures forall q, c :: Means(ix, q, c) <==> Listed(es, q) && c == CompsOf(es, q)
  {
    forall q, c ensures Means(ix, q, c) <==> Listed(es, q) && c == CompsOf(es, q) {
      if k :| k in ix.at && Covers(ix.at[k], q) && ix.at[k].comps == c {
        assert k == q;
      }
      if Listed(es, q) {
        assert q in ix.at && Covers(ix.at[q], q);
      }
    }
  }

  lemma SigningKeepsMeaning(ix: Index, sts: seq<Stanza>, mirrors: set<string>)
    requires ix.Valid() && |sts| == |ix.order|
    requires forall i :: 0 <= i < |sts| ==> sts[i] == Signed(StanzasOf(ix)[i], mirrors)
    ensures forall q, c :: StanzasMean(sts, q, c) <==> Means(ix, q, c)
  {
    forall q, c ensures StanzasMean(sts, q, c) <==> Means(ix, q, c) {
      if i :| 0 <= i < |sts| && Covers(sts[i], q) && sts[i].comps == c {
        var k := ix.order[i];
        assert k in ix.order;
        assert Covers(ix.at[k], q) && ix.at[k].comps == c;
      }
      if k :| k in ix.at && Covers(ix.at[k], q) && ix.at[k].comps == c {
        assert k in ix.order;
        var i :| 0 <= i < |ix.order| && ix.order[i] == k;
        assert sts[i] == Signed(ix.at[k], mirrors);
        assert Covers(sts[i], q) && sts[i].comps == c;
      }
    }
  }

  lemma NotMergeable(a: Key, x: Stanza, b: Key, y: Stanza)
    requires Keyed(a, x) && Keyed(b, y) && a != b && (SamePrefix(a, b) ==> x.comps != y.comps)
    ensures !Mergeable(x, y)
  {
    assert a.typ in x.types && b.typ in y.types;
    assert a.uri in x.uris && (x.uris == y.uris ==> a.uri in y.uris);
  }

  /** The types pass removes no obstacle to the suites pass, so both stay finished. */
  lemma NormalForm(bySuite: Index, byType: Index)
    requires Coherent(bySuite) && SuitesMerged(bySuite) && TypesFrom(bySuite, byType) && TypesMerged(byType)
    ensures forall a, b :: a in byType.at && b in byType.at && a != b ==> !Mergeable(byType.at[a], byType.at[b])
    ensures forall a, b ::
      a in byType.at && b in byType.at && byType.at[a].types == {"deb-src"} && "deb" in byType.at[b].types ==>
        !DifferInTypes(byType.at[a], byType.at[b])
  {
    forall a, b | a in byType.at && b in byType.at && a != b ensures !Mergeable(byType.at[a], byType.at[b]) {
      assert SamePrefix(a, b) ==> bySuite.at[a].comps != bySuite.at[b].comps;
      NotMergeable(a, byType.at[a], b, byType.at[b]);
    }
    forall a, b | a in byType.at && b in byType.at && byType.at[a].types == {"deb-src"} && "deb" in byType.at[b].types
      ensures !DifferInTypes(byType.at[a], byType.at[b])
    {
      assert a.typ in byType.at[a].types && a.typ == "deb-src";
      assert b.typ in byType.at[b].types && b.typ == "deb";
    }
  }

  method SignAll(unsigned: seq<Stanza>, mirrors: set<string>) returns (sts: seq<Stanza>)
    ensures |sts| == |unsigned| && forall i :: 0 <= i < |sts| ==> sts[i] == Signed(unsigned[i], mirrors)
  {
    sts := unsigned;
    for i := 0 to |sts|
      invariant |sts| == |unsigned|
      invariant forall j :: 0 <= j < i ==> sts[j] == Signed(unsigned[j], mirrors)
      invariant forall j :: i <= j < |sts| ==> sts[j] == unsigned[j]
    {
      sts := sts[i := Signed(sts[i], mirrors)];
    }
  }

  /** A signed stanza stands for one of the index, which only lacks the signature. */
  lemma SignedAt(byType: Index, sts: seq<Stanza>, mirrors: set<string>, i: nat) returns (k: Key)
    requires Coherent(byType) && |sts| == |byType.order| && i < |sts| && sts[i] == Signed(StanzasOf(byType)[i], mirrors)
    ensures k == byType.order[i] && k in byType.at && sts[i] == Signed(byType.at[k], mirrors) && Keyed(k, byType.at[k])
  {
    k := byType.order[i];
    assert k in byType.order;
  }

  lemma SignedFilled(k: Key, st: Stanza, mirrors: set<string>)
    requires Keyed(k, st)
    ensures var s := Signed(st, mirrors);
      && s.types != {} && s.uris != {} && s.suites != {}
      && s.signedBy == if s.uris <= mirrors then Some(KEYRING) else None
  {
    assert k.typ in st.types && k.uri in st.uris && k.dist in st.suites;
  }

  /** Neither pass could merge any two of the stanzas. */
  ghost predicate FullyMerged(sts: seq<Stanza>) {
    && (forall i, j :: 0 <= i < j < |sts| ==> !Mergeable(sts[i], sts[j]))
    && forall i, j ::
         0 <= i < |sts| && 0 <= j < |sts| && sts[i].types == {"deb-src"} && "deb" in sts[j].types ==>
           !DifferInTypes(sts[i], sts[j])
  }

  lemma SignedNormalForm(bySuite: Index, byType: Index, sts: seq<Stanza>, mirrors: set<string>)
    requires Coherent(bySuite) && SuitesMerged(bySuite) && TypesFrom(bySuite, byType) && TypesMerged(byType)
    requires |sts| == |byType.order| && forall i :: 0 <= i < |sts| ==> sts[i] == Signed(StanzasOf(byType)[i], mirrors)
    ensures FullyMerged(sts)
    ensures forall i :: 0 <= i < |sts| ==>
      && sts[i].types != {} && sts[i].uris != {} && sts[i].suites != {}
      && sts[i].signedBy == if sts[i].uris <= mirrors then Some(KEYRING) else None
  {
    NormalForm(bySuite, byType);
    forall i, j | 0 <= i < j < |sts| ensures !Mergeable(sts[i], sts[j]) {
      var a := SignedAt(byType, sts, mirrors, i);
      var b := SignedAt(byType, sts, mirrors, j);
      assert a != b && !Mergeable(byType.at[a], byType.at[b]);
    }
    forall i, j | 0 <= i < |sts| && 0 <= j < |sts| && sts[i].types == {"deb-src"} && "deb" in sts[j].types
      ensures !DifferInTypes(sts[i], sts[j])
    {
      var a := SignedAt(byType, sts, mirrors, i);
      var b := SignedAt(byType, sts, mirrors, j);
      assert !DifferInTypes(byType.at[a], byType.at[b]);
    }
    forall i | 0 <= i < |sts|
      ensures sts[i].types != {} && sts[i].uris != {} && sts[i].suites != {}
      ensures sts[i].signedBy == if sts[i].uris <= mirrors then Some(KEYRING) else None
    {
      var k := SignedAt(byType, sts, mirrors, i);
      SignedFilled(k, byType.at[k], mirrors);
    }
  }

  // ----- The conversion, line by line -----

  /** The stanza is about the same source as the line. */
  ghost predicate About(st: Stanza, e: SourceEntry) {
    st.enabled == !e.disabled && e.typ in st.types && e.uri in st.uris && e.dist in st.suites
  }

  /** Some stanza is about the line's source and has all of its components. */
  ghost predicate LineKept(sts: seq<Stanza>, e: SourceEntry) {
    exists i :: 0 <= i < |sts| && About(sts[i], e) && forall c :: c in e.comps ==> c in sts[i].comps
  }

  /** Every valid line has a stanza, but for disabled deb-src lines. */
  ghost predicate LinesKept(es: seq<SourceEntry>, sts: seq<Stanza>) {
    forall e :: e in es && !e.invalid && (e.disabled ==> e.typ != "deb-src") ==> LineKept(sts, e)
  }

  /** Some valid line that is not a disabled deb-src line names this source, and a component `c` if there is one. */
  ghost predicate FromLine(es: seq<SourceEntry>, enabled: bool, typ: string, uri: string, suite: string,
                           c: Option<string>) {
    exists e :: e in es && !e.invalid && (e.disabled ==> e.typ != "deb-src")
      && e.disabled == !enabled && e.typ == typ && e.uri == uri && e.dist == suite && (c.Some? ==> c.value in e.comps)
  }

  /** Every source and every component of a stanza comes from such a line. */
  ghost predicate NothingAdded(es: seq<SourceEntry>, sts: seq<Stanza>) {
    forall st, typ, uri, suite :: st in sts && typ in st.types && uri in st.uris && suite in st.suites ==>
      && FromLine(es, st.enabled, typ, uri, suite, None)
      && forall c :: c in st.comps ==> FromLine(es, st.enabled, typ, uri, suite, Some(c))
  }

  lemma LinesFollow(es: seq<SourceEntry>, sts: seq<Stanza>)
    requires forall q, c :: StanzasMean(sts, q, c) <==> Listed(es, q) && c == CompsOf(es, q)
    ensures LinesKept(es, sts)
  {
    forall e | e in es && !e.invalid && (e.disabled ==> e.typ != "deb-src") ensures LineKept(sts, e) {
      var j :| 0 <= j < |es| && es[j] == e;
      var q := KeyOf(e);
      assert Survives(es[j]) && KeyOf(es[j]) == q;
      assert Listed(es, q);
      assert StanzasMean(sts, q, CompsOf(es, q));
      var i :| 0 <= i < |sts| && Covers(sts[i], q) && sts[i].comps == CompsOf(es, q);
      assert About(sts[i], e);
    }
  }

  lemma LineOf(es: seq<SourceEntry>, q: Key, c: string)
    requires Listed(es, q)
    ensures FromLine(es, !q.disabled, q.typ, q.uri, q.dist, None)
    ensures c in CompsOf(es, q) ==> FromLine(es, !q.disabled, q.typ, q.uri, q.dist, Some(c))
  {
    var i :| 0 <= i < |es| && Survives(es[i]) && KeyOf(es[i]) == q;
    assert es[i] in es;
    if c in CompsOf(es, q) {
      var j :| 0 <= j < |es| && Survives(es[j]) && KeyOf(es[j]) == q && c in es[j].comps;
      assert es[j] in es;
    }
  }

  lemma StanzaFollows(es: seq<SourceEntry>, sts: seq<Stanza>, st: Stanza, typ: string, uri: string, suite: string)
    requires forall q, c :: StanzasMean(sts, q, c) <==> Listed(es, q) && c == CompsOf(es, q)
    requires st in sts && typ in st.types && uri in st.uris && suite in st.suites
    ensures FromLine(es, st.enabled, typ, uri, suite, None)
    ensures forall c :: c in st.comps ==> FromLine(es, st.enabled, typ, uri, suite, Some(c))
  {
    var i :| 0 <= i < |sts| && sts[i] == st;
    var q := Key(!st.enabled, typ, uri, suite);
    assert Covers(sts[i], q);
    assert StanzasMean(sts, q, st.comps);
    LineOf(es, q, "");
    forall c | c in st.comps ensures FromLine(es, st.enabled, typ, uri, suite, Some(c)) {
      LineOf(es, q, c);
    }
  }

  lemma NoDisabledSource(es: seq<SourceEntry>, sts: seq<Stanza>)
    requires NothingAdded(es, sts) && forall i :: 0 <= i < |sts| ==> sts[i].uris != {} && sts[i].suites != {}
    ensures forall st :: st in sts && "deb-src" in st.types ==> st.enabled
  {
    forall st | st in sts && "deb-src" in st.types ensures st.enabled {
      var i :| 0 <= i < |sts| && sts[i] == st;
      var uri, suite :| uri in st.uris && suite in st.suites;
      assert FromLine(es, st.enabled, "deb-src", uri, suite, None);
    }
  }

  /** No valid line before is the same up to its components. */
  ghost predicate FirstAbout(es: seq<SourceEntry>, n: nat)
    requires n < |es|
  {
    forall i :: 0 <= i < n && !es[i].invalid ==>
      es[i].(invalid := false, comps := []) != es[n].(invalid := false, comps := [])
  }

  ghost predicate FollowLines(es: seq<SourceEntry>, sts: seq<Stanza>, lines: seq<nat>) {
    && |lines| == |sts| && (forall i, j :: 0 <= i < j < |lines| ==> lines[i] < lines[j])
    && forall i :: 0 <= i < |lines| ==>
         lines[i] < |es| && About(sts[i], es[lines[i]]) && FirstAbout(es, lines[i])
  }

  /** The stanzas come in the order of lines they are about, each of these being the first about its source. */
  ghost predicate InFileOrder(es: seq<SourceEntry>, sts: seq<Stanza>) {
    exists lines: seq<nat> :: FollowLines(es, sts, lines)
  }

  lemma FirstLineIsFirst(es: seq<SourceEntry>, k: Key)
    requires Listed(es, k)
    ensures var n := FirstLine(es, k); n < |es| && KeyOf(es[n]) == k && FirstAbout(es, n)
  {
    var n := FirstLine(es, k);
    forall j | 0 <= j < n && !es[j].invalid
      ensures es[j].(invalid := false, comps := []) != es[n].(invalid := false, comps := [])
    {
      assert !(Survives(es[j]) && KeyOf(es[j]) == k);
    }
  }

  lemma StanzaLine(es: seq<SourceEntry>, byType: Index, sts: seq<Stanza>, mirrors: set<string>, i: nat)
    requires Coherent(byType) && |sts| == |byType.order| && i < |sts| && sts[i] == Signed(StanzasOf(byType)[i], mirrors)
    requires forall k :: k in byType.at ==> Listed(es, k)
    ensures var n := FirstLine(es, byType.order[i]); n < |es| && About(sts[i], es[n]) && FirstAbout(es, n)
  {
    var k := SignedAt(byType, sts, mirrors, i);
    FirstLineIsFirst(es, k);
    assert k.typ in byType.at[k].types && k.uri in byType.at[k].uris;
  }

  lemma StanzasFollowLines(es: seq<SourceEntry>, byType: Index, sts: seq<Stanza>, mirrors: set<string>)
    requires Coherent(byType) && |sts| == |byType.order|
    requires forall i :: 0 <= i < |sts| ==> sts[i] == Signed(StanzasOf(byType)[i], mirrors)
    requires (forall k :: k in byType.at ==> Listed(es, k)) && RisingKeys(byType.order, FileOrder(es))
    ensures InFileOrder(es, sts)
  {
    var order, pos := byType.order, FileOrder(es);
    var lines: seq<nat> := seq(|order|, i requires 0 <= i < |order| => FirstLine(es, order[i]));
    forall i | 0 <= i < |lines| ensures lines[i] < |es| && About(sts[i], es[lines[i]]) && FirstAbout(es, lines[i]) {
      StanzaLine(es, byType, sts, mirrors, i);
    }
    forall i, j | 0 <= i < j < |lines| ensures lines[i] < lines[j] {
      assert pos(order[i]) < pos(order[j]);
    }
    assert FollowLines(es, sts, lines);
  }

  lemma LineByLine(es: seq<SourceEntry>, sts: seq<Stanza>)
    requires forall q, c :: StanzasMean(sts, q, c) <==> Listed(es, q) && c == CompsOf(es, q)
    requires forall i :: 0 <= i < |sts| ==> sts[i].uris != {} && sts[i].suites != {}
    ensures LinesKept(es, sts) && NothingAdded(es, sts)
    ensures forall st :: st in sts && "deb-src" in st.types ==> st.enabled
  {
    LinesFollow(es, sts);
    forall st, typ, uri, suite | st in sts && typ in st.types && uri in st.uris && suite in st.suites
      ensures FromLine(es, st.enabled, typ, uri, suite, None)
      ensures forall c :: c in st.comps ==> FromLine(es, st.enabled, typ, uri, suite, Some(c))
    {
      StanzaFollows(es, sts, st, typ, uri, suite);
    }
    NoDisabledSource(es, sts);
  }

  /** The conversion keeps the meaning of the file exactly, never fails on a missing key,
      and leaves nothing that either merging pass could still merge. */
  method Convert(es: seq<SourceEntry>, mirrors: set<string>) returns (sts: seq<Stanza>)
    ensures forall q, c :: StanzasMean(sts, q, c) <==> Listed(es, q) && c == CompsOf(es, q)
    ensures LinesKept(es, sts) && NothingAdded(es, sts) && InFileOrder(es, sts)
    ensures forall st :: st in sts && "deb-src" in st.types ==> st.enabled
    ensures FullyMerged(sts)
    ensures forall i :: 0 <= i < |sts| ==>
      && sts[i].types != {} && sts[i].uris != {} && sts[i].suites != {}
      && sts[i].signedBy == if sts[i].uris <= mirrors then Some(KEYRING) else None
  {
    var flat := Flatten(es);
    FlatMeaning(flat, es);
    var bySuite := MergeSuites(flat);
    var byType := MergeTypes(bySuite);
    sts := StanzasOf(byType);
    sts := SignAll(sts, mirrors);
    SigningKeepsMeaning(byType, sts, mirrors);
    SignedNormalForm(bySuite, byType, sts, mirrors);
    LineByLine(es, sts);
    StanzasFollowLines(es, byType, sts, mirrors);
  }
}
