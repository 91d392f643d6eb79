/** The order in which types, suites and components of a stanza are printed. */
module AptOrder {
  import opened Sorting
  import opened Text

  /** Known names come first, in their given order; the others follow by name. */
  datatype SortKey = SortKey(group: nat, index: nat, name: string)

  function IndexOf(xs: seq<string>, x: string): (n: nat)
    requires x in xs
    ensures n < |xs| && xs[n] == x
  {
    if xs[0] == x then 0 else 1 + IndexOf(xs[1..], x)
  }

  function KeyIn(ordering: seq<string>, x: string): SortKey {
    if x in ordering then SortKey(0, IndexOf(ordering, x), "") else SortKey(1, 0, x)
  }

  function ComponentKey(c: string): SortKey { KeyIn(["main", "restricted", "universe", "multiverse"], c) }

  function PocketKey(pocket: string): SortKey { KeyIn(["", "updates", "security", "backports", "proposed"], pocket) }

  /** What follows the first dash of a suite, or nothing. */
  ghost predicate PocketOf(suite: string, pocket: string) {
    if '-' in suite then exists head :: '-' !in head && suite == head + "-" + pocket else pocket == ""
  }

  /** The pocket starts behind the first dash. */
  lemma PocketFound(suite: string, n: nat)
    requires n <= |suite| && '-' !in suite[..n] && (n < |suite| ==> suite[n] == '-')
    ensures PocketOf(suite, if n < |suite| then suite[n + 1..] else "")
  {
    var head := suite[..n];
    if n < |suite| {
      assert suite == head + "-" + suite[n + 1..];
    } else {
      assert head == suite;
    }
  }

  function Pocket(suite: string): (p: string)
    ensures PocketOf(suite, p)
  {
    var n := Find(suite, '-');
    PocketFound(suite, n);
    if n < |suite| then suite[n + 1..] else ""
  }

  function SuiteKey(s: string): SortKey { PocketKey(Pocket(s)) }

  function TypeKey(t: string): SortKey { KeyIn(["deb", "deb-src"], t) }

  function UriKey(u: string): SortKey { SortKey(0, 0, u) }

  predicate KeyLe(a: SortKey, b: SortKey) {
    a.group < b.group || (a.group == b.group && (a.index < b.index || (a.index == b.index && LexLe(a.name, b.name))))
  }

  lemma KeyLeOrder(a: SortKey, b: SortKey, c: SortKey)
    ensures KeyLe(a, b) || KeyLe(b, a)
    ensures KeyLe(a, b) && KeyLe(b, c) ==> KeyLe(a, c)
  {
    LexTotal(a.name, b.name);
    if LexLe(a.name, b.name) && LexLe(b.name, c.name) {
      LexTransitive(a.name, b.name, c.name);
    }
  }

  lemma KeyLeTotal(key: string -> SortKey)
    ensures TotalPreorder((a: string, b: string) => KeyLe(key(a), key(b)))
  {
    forall a: string, b: string, c: string
      ensures KeyLe(key(a), key(b)) || KeyLe(key(b), key(a))
      ensures KeyLe(key(a), key(b)) && KeyLe(key(b), key(c)) ==> KeyLe(key(a), key(c))
    {
      KeyLeOrder(key(a), key(b), key(c));
    }
  }

  // ----- The order by name -----

  /** Names that are known come as in the list `known`, and before all others; those come by name. */
  ghost predicate KnownFirst(known: seq<string>, x: string, y: string) {
    if x in known && y in known then exists a, b :: 0 <= a <= b < |known| && known[a] == x && known[b] == y
    else if x !in known && y !in known then LexLe(x, y)
    else x in known
  }

  lemma KeyInOrder(known: seq<string>, x: string, y: string)
    requires NoDup(known)
    ensures KeyLe(KeyIn(known, x), KeyIn(known, y)) <==> KnownFirst(known, x, y)
  {
    if x in known && y in known {
      var i, j := IndexOf(known, x), IndexOf(known, y);
      assert known[i] == x && known[j] == y;
      assert forall a :: 0 <= a < |known| && known[a] == x ==> a == i;
      assert forall b :: 0 <= b < |known| && known[b] == y ==> b == j;
    }
  }

  /** deb before deb-src. */
  ghost predicate TypeOrder(s: string, t: string) { KnownFirst(["deb", "deb-src"], s, t) }

  ghost predicate ComponentOrder(c: string, d: string) {
    KnownFirst(["main", "restricted", "universe", "multiverse"], c, d)
  }

  /** Which pocket goes before which. */
  ghost predicate PocketOrder(p: string, q: string) {
    KnownFirst(["", "updates", "security", "backports", "proposed"], p, q)
  }

  /** The release itself first, then its pockets. */
  ghost predicate SuiteOrder(s: string, t: string) {
    exists p, q :: PocketOf(s, p) && PocketOf(t, q) && PocketOrder(p, q)
  }

  lemma TypesOrdered(s: string, t: string)
    requires KeyLe(TypeKey(s), TypeKey(t))
    ensures TypeOrder(s, t)
  {
    KeyInOrder(["deb", "deb-src"], s, t);
  }

  lemma ComponentsOrdered(c: string, d: string)
    requires KeyLe(ComponentKey(c), ComponentKey(d))
    ensures ComponentOrder(c, d)
  {
    KeyInOrder(["main", "restricted", "universe", "multiverse"], c, d);
  }

  lemma PocketsOrdered(p: string, q: string)
    requires KeyLe(PocketKey(p), PocketKey(q))
    ensures PocketOrder(p, q)
  {
    KeyInOrder(["", "updates", "security", "backports", "proposed"], p, q);
  }

  lemma SuitesOrdered(s: string, t: string)
    requires KeyLe(SuiteKey(s), SuiteKey(t))
    ensures SuiteOrder(s, t)
  {
    PocketsOrdered(Pocket(s), Pocket(t));
  }
}
