/** The two generators of APT sources: the one-line one and the deb822 one, and why they agree. */
module AptGenerators {
  import opened Sorting
  import opened Wrappers
  import opened Text
  import opened AptConvert
  import opened Deb822Text
  import opened AptOrder

  // ----- Arranging the values of a field for printing -----

  method SortByKey(xs: seq<string>, key: string -> SortKey) returns (r: seq<string>)
    ensures multiset(r) == multiset(xs) && ToSet(r) == ToSet(xs)
    ensures forall i, j :: 0 <= i < j < |r| ==> KeyLe(key(r[i]), key(r[j]))
  {
    var le := (a: string, b: string) => KeyLe(key(a), key(b));
    KeyLeTotal(key);
    SortPermutes(xs, le);
    SortOrdered(xs, le);
    r := Sort(xs, le);
    PermutationFacts(xs, r);
    forall i, j | 0 <= i < j < |r| ensures KeyLe(key(r[i]), key(r[j])) {
      assert le(r[i], r[j]);
    }
  }

  lemma WalkedOne(walked: seq<string>, left: set<string>, x: string)
    requires ToSet(walked) !! left && NoDup(walked) && x in left
    ensures ToSet(walked + [x]) == ToSet(walked) + {x} && NoDup(walked + [x])
  {
    assert x !in walked by {
      assert x !in ToSet(walked);
    }
  }

  /** A set sorted by key; names with equal keys may come in any order, as the set is walked in any order. */
  method Arrange(s: set<string>, key: string -> SortKey) returns (r: seq<string>)
    ensures ToSet(r) == s && NoDup(r)
    ensures forall i, j :: 0 <= i < j < |r| ==> KeyLe(key(r[i]), key(r[j]))
  {
    var left, walked := s, [];
    while left != {}
      invariant ToSet(walked) + left == s && ToSet(walked) !! left && NoDup(walked)
      decreases |left|
    {
      var x :| x in left;
      WalkedOne(walked, left, x);
      walked, left := walked + [x], left - {x};
    }
    r := SortByKey(walked, key);
    PermutationNoDup(walked, r);
  }

  /** Every field lists its values in the order in which they are to be printed. */
  ghost predicate InPrintOrder(p: Para) {
    && Ordered(p.types, TypeOrder) && Ordered(p.uris, LexLe)
    && Ordered(p.suites, SuiteOrder) && Ordered(p.comps, ComponentOrder)
  }

  lemma SortedInPrintOrder(p: Para)
    requires forall i, j :: 0 <= i < j < |p.types| ==> KeyLe(TypeKey(p.types[i]), TypeKey(p.types[j]))
    requires forall i, j :: 0 <= i < j < |p.uris| ==> KeyLe(UriKey(p.uris[i]), UriKey(p.uris[j]))
    requires forall i, j :: 0 <= i < j < |p.suites| ==> KeyLe(SuiteKey(p.suites[i]), SuiteKey(p.suites[j]))
    requires forall i, j :: 0 <= i < j < |p.comps| ==> KeyLe(ComponentKey(p.comps[i]), ComponentKey(p.comps[j]))
    ensures InPrintOrder(p)
  {
    forall i, j | 0 <= i < j < |p.types| ensures TypeOrder(p.types[i], p.types[j]) {
      TypesOrdered(p.types[i], p.types[j]);
    }
    forall i, j | 0 <= i < j < |p.suites| ensures SuiteOrder(p.suites[i], p.suites[j]) {
      SuitesOrdered(p.suites[i], p.suites[j]);
    }
    forall i, j | 0 <= i < j < |p.comps| ensures ComponentOrder(p.comps[i], p.comps[j]) {
      ComponentsOrdered(p.comps[i], p.comps[j]);
    }
  }

  ghost predicate Shows(p: Para, st: Stanza) {
    && p.enabled == st.enabled && ToSet(p.types) == st.types && ToSet(p.uris) == st.uris
    && ToSet(p.suites) == st.suites && ToSet(p.comps) == st.comps && p.signedBy == st.signedBy
  }

  method ArrangeStanza(st: Stanza) returns (p: Para)
    ensures Shows(p, st) && InPrintOrder(p)
  {
    var types := Arrange(st.types, TypeKey);
    var uris := Arrange(st.uris, UriKey);
    var suites := Arrange(st.suites, SuiteKey);
    var comps := Arrange(st.comps, ComponentKey);
    p := Para(st.enabled, types, uris, suites, comps, st.signedBy);
    SortedInPrintOrder(p);
  }

  method ArrangeAll(sts: seq<Stanza>) returns (ps: seq<Para>)
    ensures |ps| == |sts| && forall i :: 0 <= i < |ps| ==> Shows(ps[i], sts[i])
    ensures forall i :: 0 <= i < |ps| ==> InPrintOrder(ps[i])
  {
    ps := [];
    for i := 0 to |sts|
      invariant |ps| == i && forall j :: 0 <= j < i ==> Shows(ps[j], sts[j])
      invariant forall j :: 0 <= j < i ==> InPrintOrder(ps[j])
    {
      var p := ArrangeStanza(sts[i]);
      ps := ps + [p];
    }
  }

  // ----- Converting a whole file -----

  /** The fields of a line that counts are single words, as splitting a line at white space yields them. */
  predicate WellFormed(es: seq<SourceEntry>) {
    forall e :: e in es && Survives(e) ==> Token(e.typ) && Token(e.uri) && Token(e.dist) && Tokens(e.comps)
  }

  ghost predicate CoversPara(p: Para, q: Key) {
    p.enabled == !q.disabled && q.typ in p.types && q.uri in p.uris && q.dist in p.suites
  }

  ghost predicate ParasMean(ps: seq<Para>, q: Key, comps: set<string>) {
    exists i :: 0 <= i < |ps| && CoversPara(ps[i], q) && ToSet(ps[i].comps) == comps
  }

  ghost predicate MeansLines(ps: seq<Para>, es: seq<SourceEntry>) {
    forall q, c :: ParasMean(ps, q, c) <==> AptConvert.Listed(es, q) && c == CompsOf(es, q)
  }

  /** Every stanza names a type, a URI and a suite. */
  predicate Filled(ps: seq<Para>) {
    forall i :: 0 <= i < |ps| ==> ps[i].types != [] && ps[i].uris != [] && ps[i].suites != []
  }

  lemma ShownMeaning(ps: seq<Para>, sts: seq<Stanza>)
    requires |ps| == |sts| && forall i :: 0 <= i < |ps| ==> Shows(ps[i], sts[i])
    ensures forall q, c :: ParasMean(ps, q, c) <==> StanzasMean(sts, q, c)
  {
    forall q, c ensures ParasMean(ps, q, c) <==> StanzasMean(sts, q, c) {
      forall i | 0 <= i < |ps| ensures CoversPara(ps[i], q) <==> Covers(sts[i], q) {
        assert q.typ in ps[i].types <==> q.typ in ToSet(ps[i].types);
        assert q.uri in ps[i].uris <==> q.uri in ToSet(ps[i].uris);
        assert q.dist in ps[i].suites <==> q.dist in ToSet(ps[i].suites);
      }
      if i :| 0 <= i < |ps| && CoversPara(ps[i], q) && ToSet(ps[i].comps) == c {
        assert Covers(sts[i], q) && sts[i].comps == c;
      }
      if i :| 0 <= i < |sts| && Covers(sts[i], q) && sts[i].comps == c {
        assert CoversPara(ps[i], q) && ToSet(ps[i].comps) == c;
      }
    }
  }

  lemma ListedTokens(es: seq<SourceEntry>, q: Key, c: string)
    requires WellFormed(es) && AptConvert.Listed(es, q)
    ensures Token(q.typ) && Token(q.uri) && Token(q.dist) && (c in CompsOf(es, q) ==> Token(c))
  {
    var i :| 0 <= i < |es| && Survives(es[i]) && KeyOf(es[i]) == q;
    assert es[i] in es;
    if c in CompsOf(es, q) {
      var j :| 0 <= j < |es| && Survives(es[j]) && KeyOf(es[j]) == q && c in es[j].comps;
      assert es[j] in es;
    }
  }

  lemma NameIsToken(es: seq<SourceEntry>, st: Stanza, q: Key, x: string)
    requires WellFormed(es) && Covers(st, q)
    requires Covers(st, q) ==> AptConvert.Listed(es, q) && st.comps == CompsOf(es, q)
    requires x == q.typ || x == q.uri || x == q.dist || x in st.comps
    ensures Token(x)
  {
    ListedTokens(es, q, x);
  }

  lemma KeyringPath()
    ensures Token("/usr/share/") && Token("keyrings/")
  {
  }

  lemma KeyringName()
    ensures Token("ubuntu-") && Token("archive-") && Token("keyring.gpg")
  {
  }

  lemma FiveTokens(a: string, b: string, c: string, d: string, e: string)
    requires Token(a) && Token(b) && Token(c) && Token(d) && Token(e)
    ensures Token(a + b + c + d + e)
  {
  }

  lemma KeyringIsToken()
    ensures Token(KEYRING)
  {
    KeyringPath();
    KeyringName();
    FiveTokens("/usr/share/", "keyrings/", "ubuntu-", "archive-", "keyring.gpg");
    assert KEYRING == "/usr/share/" + "keyrings/" + "ubuntu-" + "archive-" + "keyring.gpg";
  }

  /** Every name in a converted stanza comes from some line, so it prints as one word. */
  lemma ShownPrintable(es: seq<SourceEntry>, p: Para, st: Stanza)
    requires WellFormed(es) && Shows(p, st) && st.types != {} && st.uris != {} && st.suites != {}
    requires forall q :: Covers(st, q) ==> AptConvert.Listed(es, q) && st.comps == CompsOf(es, q)
    requires st.signedBy == None || st.signedBy == Some(KEYRING)
    ensures Printable(p)
  {
    var t0, u0, s0 :| t0 in st.types && u0 in st.uris && s0 in st.suites;
    forall t | t in p.types ensures Token(t) {
      assert t in ToSet(p.types);
      NameIsToken(es, st, Key(!st.enabled, t, u0, s0), t);
    }
    forall u | u in p.uris ensures Token(u) {
      assert u in ToSet(p.uris);
      NameIsToken(es, st, Key(!st.enabled, t0, u, s0), u);
    }
    forall s | s in p.suites ensures Token(s) {
      assert s in ToSet(p.suites);
      NameIsToken(es, st, Key(!st.enabled, t0, u0, s), s);
    }
    forall c | c in p.comps ensures Token(c) {
      assert c in ToSet(p.comps);
      NameIsToken(es, st, Key(!st.enabled, t0, u0, s0), c);
    }
    KeyringIsToken();
  }

  ghost predicate SomeSurvive(es: seq<SourceEntry>) {
    exists i :: 0 <= i < |es| && Survives(es[i])
  }

  ghost predicate ParasFollow(es: seq<SourceEntry>, ps: seq<Para>, lines: seq<nat>) {
    && |lines| == |ps| && (forall i, j :: 0 <= i < j < |lines| ==> lines[i] < lines[j])
    && forall i :: 0 <= i < |lines| ==>
         lines[i] < |es| && CoversPara(ps[i], KeyOf(es[lines[i]])) && FirstAbout(es, lines[i])
  }

  /** The stanzas come in the order of the first lines about them, and their values in print order. */
  ghost predicate Arranged(es: seq<SourceEntry>, ps: seq<Para>) {
    && (forall i :: 0 <= i < |ps| ==> InPrintOrder(ps[i]))
    && exists lines: seq<nat> :: ParasFollow(es, ps, lines)
  }

  /** The file `text` reads back as stanzas that mean the lines `es`. */
  ghost predicate Carries(text: string, es: seq<SourceEntry>) {
    var r := ParseSources(text);
    && r.Ok? && MeansLines(r.value, es) && Filled(r.value) && Arranged(es, r.value)
    && forall p :: p in r.value ==> Printable(p)
  }

  lemma ShownOrder(es: seq<SourceEntry>, sts: seq<Stanza>, ps: seq<Para>)
    requires |ps| == |sts| && InFileOrder(es, sts) && forall i :: 0 <= i < |ps| ==> Shows(ps[i], sts[i])
    ensures exists lines: seq<nat> :: ParasFollow(es, ps, lines)
  {
    var lines: seq<nat> :| FollowLines(es, sts, lines);
    forall i | 0 <= i < |lines| ensures CoversPara(ps[i], KeyOf(es[lines[i]])) {
      var e := es[lines[i]];
      assert About(sts[i], e);
      assert e.typ in ToSet(ps[i].types) && e.uri in ToSet(ps[i].uris) && e.dist in ToSet(ps[i].suites);
    }
    assert ParasFollow(es, ps, lines);
  }

  lemma NoSourceNoStanza(es: seq<SourceEntry>, sts: seq<Stanza>)
    requires forall q, c :: StanzasMean(sts, q, c) <==> AptConvert.Listed(es, q) && c == CompsOf(es, q)
    requires forall i :: 0 <= i < |sts| ==> sts[i].types != {} && sts[i].uris != {} && sts[i].suites != {}
    ensures sts == [] <==> forall i :: 0 <= i < |es| ==> !Survives(es[i])
  {
    if sts != [] {
      var t, u, s :| t in sts[0].types && u in sts[0].uris && s in sts[0].suites;
      var q := Key(!sts[0].enabled, t, u, s);
      assert Covers(sts[0], q);
      assert StanzasMean(sts, q, sts[0].comps);
    }
    if i :| 0 <= i < |es| && Survives(es[i]) {
      assert AptConvert.Listed(es, KeyOf(es[i]));
      assert StanzasMean(sts, KeyOf(es[i]), CompsOf(es, KeyOf(es[i])));
    }
  }

  lemma EmptyToSet(xs: seq<string>)
    ensures ToSet(xs) == {} <==> xs == []
  {
    if xs != [] {
      assert xs[0] in ToSet(xs);
    }
  }

  /** The arranged stanzas mean the lines and can be printed. */
  lemma ParasCarry(es: seq<SourceEntry>, sts: seq<Stanza>, ps: seq<Para>)
    requires WellFormed(es) && |ps| == |sts| && forall i :: 0 <= i < |ps| ==> Shows(ps[i], sts[i])
    requires forall q, c :: StanzasMean(sts, q, c) <==> AptConvert.Listed(es, q) && c == CompsOf(es, q)
    requires forall i :: 0 <= i < |sts| ==>
      && sts[i].types != {} && sts[i].uris != {} && sts[i].suites != {}
      && (sts[i].signedBy.Some? ==> sts[i].signedBy.value == KEYRING)
    ensures MeansLines(ps, es) && Filled(ps) && forall p :: p in ps ==> Printable(p)
  {
    ShownMeaning(ps, sts);
    forall i | 0 <= i < |ps| ensures ps[i].types != [] && ps[i].uris != [] && ps[i].suites != [] {
      EmptyToSet(ps[i].types);
      EmptyToSet(ps[i].uris);
      EmptyToSet(ps[i].suites);
    }
    forall p | p in ps ensures Printable(p) {
      var i :| 0 <= i < |ps| && ps[i] == p;
      forall q | Covers(sts[i], q) ensures AptConvert.Listed(es, q) && sts[i].comps == CompsOf(es, q) {
        assert StanzasMean(sts, q, sts[i].comps);
      }
      ShownPrintable(es, p, sts[i]);
    }
  }

  /** The converted text parses to stanzas that mean the lines, unless no line survives. */
  method ConvertText(es: seq<SourceEntry>, mirrors: set<string>) returns (text: string)
    requires WellFormed(es)
    ensures SomeSurvive(es) ==> Carries(text, es)
    ensures !SomeSurvive(es) ==> text == "" && ParseSources(text) == Err(NoSources)
  {
    var sts := Convert(es, mirrors);
    NoSourceNoStanza(es, sts);
    var ps := ArrangeAll(sts);
    ParasCarry(es, sts, ps);
    ShownOrder(es, sts, ps);
    PrintParseRoundTrip(ps);
    text := PrintSources(ps);
  }

  /** `readLines` stands for the line parser; it finds no line in an empty file. */
  method MaybeConvert(text: string, readLines: string -> seq<SourceEntry>, mirrors: set<string>) returns (out: string)
    requires ParseSources(text).Err? ==> WellFormed(readLines(text))
    ensures ParseSources(text).Ok? ==> out == text
    ensures ParseSources(text).Err? && SomeSurvive(readLines(text)) ==> Carries(out, readLines(text))
    ensures ParseSources(text).Err? && !SomeSurvive(readLines(text)) ==>
      out == "" && ParseSources(out) == Err(NoSources)
  {
    var parsed := ParseSources(text);
    if parsed.Ok? {
      out := text;
    } else {
      out := ConvertText(readLines(text), mirrors);
    }
  }

  /** Converting a second time changes nothing. */
  method ConvertTwice(text: string, readLines: string -> seq<SourceEntry>, mirrors: set<string>)
    returns (once: string, twice: string)
    requires ParseSources(text).Err? ==> WellFormed(readLines(text))
    requires readLines("") == []
    ensures twice == once
  {
    once := MaybeConvert(text, readLines, mirrors);
    assert ParseSources(once).Err? ==> once == "" && !SomeSurvive(readLines(once));
    twice := MaybeConvert(once, readLines, mirrors);
  }

  // ----- What ends up enabled -----

  datatype Tuple = Tuple(typ: string, uri: string, suite: string, comp: string)

  /** The configuration both generators work from: how URIs and suites are rendered,
      and the (rendered) suites and the components to disable. */
  datatype Cfg = Cfg(uri: string -> string, suite: string -> string, suitesOff: set<string>, compsOff: set<string>) {
    predicate CompOff(c: string) { c in compsOff && c != "main" }
  }

  predicate Active(e: SourceEntry) { !e.invalid && !e.disabled }

  ghost predicate OffersLine(e: SourceEntry, t: Tuple) {
    Active(e) && t.typ == e.typ && t.uri == e.uri && t.suite == e.dist && t.comp in e.comps
  }

  ghost predicate LinesOffer(es: seq<SourceEntry>, t: Tuple) {
    exists i :: 0 <= i < |es| && OffersLine(es[i], t)
  }

  ghost predicate OffersPara(p: Para, t: Tuple) {
    p.enabled && t.typ in p.types && t.uri in p.uris && t.suite in p.suites && t.comp in p.comps
  }

  ghost predicate ParasOffer(ps: seq<Para>, t: Tuple) {
    exists i :: 0 <= i < |ps| && OffersPara(ps[i], t)
  }

  /** The line is active, asks for the tuple once rendered, and nothing of that is disabled. */
  predicate LineWanted(e: SourceEntry, cfg: Cfg, t: Tuple) {
    && Active(e) && t.typ == e.typ && t.uri == cfg.uri(e.uri) && t.suite == cfg.suite(e.dist) && t.comp in e.comps
    && t.suite !in cfg.suitesOff && !cfg.CompOff(t.comp)
  }

  /** The reference: an active line of the template, rendered, minus what the configuration disables. */
  ghost predicate Wanted(es: seq<SourceEntry>, cfg: Cfg, t: Tuple) {
    exists i :: 0 <= i < |es| && LineWanted(es[i], cfg, t)
  }

  // ----- The one-line generator -----

  function Rendered(e: SourceEntry, cfg: Cfg): SourceEntry {
    e.(uri := cfg.uri(e.uri), dist := cfg.suite(e.dist))
  }

  /** Commenting a line out turns it off and keeps what it says. */
  function Commentify(e: SourceEntry): SourceEntry { e.(disabled := true) }

  method Render(es: seq<SourceEntry>, cfg: Cfg) returns (out: seq<SourceEntry>)
    ensures |out| == |es| && forall i :: 0 <= i < |es| ==> out[i] == Rendered(es[i], cfg)
  {
    out := es;
    for i := 0 to |out|
      invariant |out| == |es|
      invariant forall j :: 0 <= j < i ==> out[j] == Rendered(es[j], cfg)
      invariant forall j :: i <= j < |out| ==> out[j] == es[j]
    {
      out := out[i := Rendered(out[i], cfg)];
    }
  }

  method DisableSuites(off: set<string>, es: seq<SourceEntry>) returns (out: seq<SourceEntry>)
    ensures |out| == |es|
    ensures forall i :: 0 <= i < |es| ==>
      out[i] == if !es[i].disabled && es[i].dist in off then Commentify(es[i]) else es[i]
  {
    if off == {} {
      return es;
    }
    out := [];
    for i := 0 to |es|
      invariant |out| == i
      invariant forall j :: 0 <= j < i ==>
        out[j] == if !es[j].disabled && es[j].dist in off then Commentify(es[j]) else es[j]
    {
      out := out + [if !es[i].disabled && es[i].dist in off then Commentify(es[i]) else es[i]];
    }
  }

  function Kept(comps: seq<string>, cfg: Cfg): (r: seq<string>)
    ensures forall c :: c in r <==> c in comps && !cfg.CompOff(c)
  {
    if comps == [] then [] else (if cfg.CompOff(comps[0]) then [] else [comps[0]]) + Kept(comps[1..], cfg)
  }

  /** What becomes of one line when components are disabled. */
  function DisabledLine(e: SourceEntry, cfg: Cfg): seq<SourceEntry> {
    if !e.disabled && exists c :: c in e.comps && cfg.CompOff(c) then
      [Commentify(e)] + (if Kept(e.comps, cfg) != [] then [e.(comps := Kept(e.comps, cfg))] else [])
    else [e]
  }

  lemma LinesOfferAppend(a: seq<SourceEntry>, b: seq<SourceEntry>, t: Tuple)
    ensures LinesOffer(a + b, t) <==> LinesOffer(a, t) || LinesOffer(b, t)
  {
    var all := a + b;
    if i :| 0 <= i < |a| && OffersLine(a[i], t) {
      assert OffersLine(all[i], t);
    }
    if i :| 0 <= i < |b| && OffersLine(b[i], t) {
      assert OffersLine(all[|a| + i], t);
    }
    if i :| 0 <= i < |all| && OffersLine(all[i], t) {
      assert all[i] == if i < |a| then a[i] else b[i - |a|];
    }
  }

  lemma DisabledLineOffers(e: SourceEntry, cfg: Cfg, t: Tuple)
    ensures LinesOffer(DisabledLine(e, cfg), t) <==> OffersLine(e, t) && !cfg.CompOff(t.comp)
    ensures forall x :: x in DisabledLine(e, cfg) && Active(x) && x.comps == [] ==> Active(e) && e.comps == []
  {
    var r := DisabledLine(e, cfg);
    var k := e.(comps := Kept(e.comps, cfg));
    if OffersLine(e, t) && !cfg.CompOff(t.comp) {
      assert t.comp in Kept(e.comps, cfg);
      assert OffersLine(r[|r| - 1], t);
    }
  }

  function DisabledLines(es: seq<SourceEntry>, cfg: Cfg): seq<SourceEntry> {
    if es == [] then [] else DisabledLines(es[..|es| - 1], cfg) + DisabledLine(es[|es| - 1], cfg)
  }

  /** Each line in place: kept, or commented out and followed by a line with the components that remain. */
  method DisableComponents(cfg: Cfg, es: seq<SourceEntry>) returns (out: seq<SourceEntry>)
    ensures out == DisabledLines(es, cfg)
  {
    out := [];
    for i := 0 to |es|
      invariant out == DisabledLines(es[..i], cfg)
    {
      assert es[..i + 1][..i] == es[..i];
      out := out + DisabledLine(es[i], cfg);
    }
    assert es[..|es|] == es;
  }

  /** Disabling components takes away exactly what they offered, and empties no line it leaves active. */
  lemma {:induction false} DisabledLinesOffer(es: seq<SourceEntry>, cfg: Cfg, t: Tuple)
    ensures LinesOffer(DisabledLines(es, cfg), t) <==> LinesOffer(es, t) && !cfg.CompOff(t.comp)
    ensures forall x :: x in DisabledLines(es, cfg) && Active(x) && x.comps == [] ==> x in es
  {
    if es != [] {
      var init, last := es[..|es| - 1], es[|es| - 1];
      DisabledLinesOffer(init, cfg, t);
      assert es == init + [last];
      LinesOfferAppend(DisabledLines(init, cfg), DisabledLine(last, cfg), t);
      LinesOfferAppend(init, [last], t);
      DisabledLineOffers(last, cfg, t);
      assert LinesOffer([last], t) <==> OffersLine([last][0], t);
    }
  }

  /** The one-line generator offers exactly what is wanted, and never leaves an active line
      without components unless the template had it. */
  method GenerateLegacy(es: seq<SourceEntry>, cfg: Cfg) returns (out: seq<SourceEntry>)
    ensures forall t :: LinesOffer(out, t) <==> Wanted(es, cfg, t)
    ensures forall x :: x in out && Active(x) && x.comps == [] ==>
      exists i :: 0 <= i < |es| && Active(es[i]) && es[i].comps == []
  {
    var rendered := Render(es, cfg);
    var suites := DisableSuites(cfg.suitesOff, rendered);
    forall t ensures LinesOffer(suites, t) && !cfg.CompOff(t.comp) <==> Wanted(es, cfg, t) {
      if i :| 0 <= i < |suites| && OffersLine(suites[i], t) && !cfg.CompOff(t.comp) {
        assert rendered[i] == Rendered(es[i], cfg) && LineWanted(es[i], cfg, t);
      }
      if Wanted(es, cfg, t) {
        var i :| 0 <= i < |es| && LineWanted(es[i], cfg, t);
        assert OffersLine(suites[i], t);
      }
    }
    out := DisableComponents(cfg, suites);
    forall t ensures LinesOffer(out, t) <==> LinesOffer(suites, t) && !cfg.CompOff(t.comp) {
      DisabledLinesOffer(suites, cfg, t);
    }
    DisabledLinesOffer(suites, cfg, Tuple("", "", "", ""));
    forall x | x in out && Active(x) && x.comps == []
      ensures exists i :: 0 <= i < |es| && Active(es[i]) && es[i].comps == []
    {
      var i :| 0 <= i < |suites| && suites[i] == x;
      assert Active(es[i]) && es[i].comps == [];
    }
  }

  // ----- The deb822 generator -----

  function RenderAll(xs: seq<string>, f: string -> string): (r: seq<string>)
    ensures |r| == |xs| && forall y :: y in r <==> exists i :: 0 <= i < |xs| && f(xs[i]) == y
  {
    var r := seq(|xs|, i requires 0 <= i < |xs| => f(xs[i]));
    assert forall i :: 0 <= i < |xs| ==> r[i] == f(xs[i]);
    r
  }

  function SuitesLeft(p: Para, cfg: Cfg): set<string> { ToSet(RenderAll(p.suites, cfg.suite)) - cfg.suitesOff }

  function CompsLeft(p: Para, cfg: Cfg): set<string> { set c | c in p.comps && !cfg.CompOff(c) }

  /** `r` is what becomes of the stanza `p`. */
  ghost predicate Becomes(p: Para, cfg: Cfg, r: Para) {
    && r.enabled == p.enabled && ToSet(r.types) == ToSet(p.types) && ToSet(r.uris) == ToSet(RenderAll(p.uris, cfg.uri))
    && ToSet(r.suites) == SuitesLeft(p, cfg) && ToSet(r.comps) == CompsLeft(p, cfg) && r.signedBy == p.signedBy
  }

  method Customize(p: Para, cfg: Cfg) returns (r: Para)
    ensures Becomes(p, cfg, r) && InPrintOrder(r)
  {
    var types := SortByKey(p.types, TypeKey);
    var uris := SortByKey(RenderAll(p.uris, cfg.uri), UriKey);
    var suites := Arrange(SuitesLeft(p, cfg), SuiteKey);
    var comps := Arrange(CompsLeft(p, cfg), ComponentKey);
    r := Para(p.enabled, types, uris, suites, comps, p.signedBy);
    SortedInPrintOrder(r);
  }

  ghost predicate ParaWanted(p: Para, cfg: Cfg, t: Tuple) {
    && p.enabled && t.typ in p.types && t.uri in RenderAll(p.uris, cfg.uri)
    && t.suite in SuitesLeft(p, cfg) && t.comp in CompsLeft(p, cfg)
  }

  lemma BecomesOffers(p: Para, cfg: Cfg, r: Para, t: Tuple)
    requires Becomes(p, cfg, r)
    ensures OffersPara(r, t) <==> ParaWanted(p, cfg, t)
  {
    assert t.typ in r.types <==> t.typ in ToSet(r.types);
    assert t.typ in p.types <==> t.typ in ToSet(p.types);
    assert t.uri in r.uris <==> t.uri in ToSet(r.uris);
    assert t.uri in RenderAll(p.uris, cfg.uri) <==> t.uri in ToSet(RenderAll(p.uris, cfg.uri));
    assert t.suite in r.suites <==> t.suite in ToSet(r.suites);
    assert t.comp in r.comps <==> t.comp in ToSet(r.comps);
  }

  /** The stanzas that keep a suite, in order. */
  function Staying(ps: seq<Para>, cfg: Cfg): seq<Para> {
    if ps == [] then []
    else Staying(ps[..|ps| - 1], cfg) + (if SuitesLeft(ps[|ps| - 1], cfg) != {} then [ps[|ps| - 1]] else [])
  }

  lemma {:induction false} StayingMembers(ps: seq<Para>, cfg: Cfg, p: Para)
    ensures p in Staying(ps, cfg) <==> p in ps && SuitesLeft(p, cfg) != {}
  {
    if ps != [] {
      var init, last := ps[..|ps| - 1], ps[|ps| - 1];
      StayingMembers(init, cfg, p);
      assert ps == init + [last];
    }
  }

  /** `out` holds what becomes of each stanza that keeps a suite, in order. */
  ghost predicate Customized(ps: seq<Para>, cfg: Cfg, out: seq<Para>) {
    var staying := Staying(ps, cfg);
    && |out| == |staying|
    && forall k :: 0 <= k < |out| ==> out[k].suites != [] && Becomes(staying[k], cfg, out[k]) && InPrintOrder(out[k])
  }

  /** Each stanza in turn; one with no suite left is dropped. */
  method CustomizeAll(ps: seq<Para>, cfg: Cfg) returns (out: seq<Para>)
    ensures Customized(ps, cfg, out)
  {
    out := [];
    for i := 0 to |ps|
      invariant Customized(ps[..i], cfg, out)
    {
      assert ps[..i + 1][..i] == ps[..i];
      var r := Customize(ps[i], cfg);
      EmptyToSet(r.suites);
      if r.suites != [] {
        out := out + [r];
      }
    }
    assert ps[..|ps|] == ps;
  }

  /** Where a stanza of `out` comes from, and where a stanza that keeps a suite went. */
  lemma CameFrom(ps: seq<Para>, cfg: Cfg, out: seq<Para>, k: nat) returns (i: nat)
    requires Customized(ps, cfg, out) && k < |out|
    ensures i < |ps| && Becomes(ps[i], cfg, out[k])
  {
    var p := Staying(ps, cfg)[k];
    StayingMembers(ps, cfg, p);
    i :| 0 <= i < |ps| && ps[i] == p;
  }

  lemma WentTo(ps: seq<Para>, cfg: Cfg, out: seq<Para>, i: nat) returns (k: nat)
    requires Customized(ps, cfg, out) && i < |ps| && SuitesLeft(ps[i], cfg) != {}
    ensures k < |out| && Becomes(ps[i], cfg, out[k])
  {
    StayingMembers(ps, cfg, ps[i]);
    k :| 0 <= k < |out| && Staying(ps, cfg)[k] == ps[i];
  }

  lemma StanzaWanted(es: seq<SourceEntry>, ps: seq<Para>, cfg: Cfg, t: Tuple, i: nat)
    requires MeansLines(ps, es) && i < |ps| && ParaWanted(ps[i], cfg, t)
    ensures Wanted(es, cfg, t)
  {
    var p := ps[i];
    var u :| 0 <= u < |p.uris| && cfg.uri(p.uris[u]) == t.uri;
    assert t.suite in RenderAll(p.suites, cfg.suite);
    var s :| 0 <= s < |p.suites| && cfg.suite(p.suites[s]) == t.suite;
    var q := Key(false, t.typ, p.uris[u], p.suites[s]);
    assert CoversPara(p, q);
    assert ParasMean(ps, q, ToSet(p.comps));
    assert t.comp in CompsOf(es, q);
    var j :| 0 <= j < |es| && Survives(es[j]) && KeyOf(es[j]) == q && t.comp in es[j].comps;
    assert Active(es[j]);
  }

  lemma WantedStanza(es: seq<SourceEntry>, ps: seq<Para>, cfg: Cfg, t: Tuple) returns (i: nat)
    requires MeansLines(ps, es) && Wanted(es, cfg, t)
    ensures i < |ps| && ParaWanted(ps[i], cfg, t)
  {
    var j :| 0 <= j < |es| && LineWanted(es[j], cfg, t);
    var q := KeyOf(es[j]);
    assert AptConvert.Listed(es, q) && t.comp in CompsOf(es, q);
    assert ParasMean(ps, q, CompsOf(es, q));
    i :| 0 <= i < |ps| && CoversPara(ps[i], q) && ToSet(ps[i].comps) == CompsOf(es, q);
    assert t.comp in ToSet(ps[i].comps);
  }

  /** The sources an enabled stanza speaks of are the active lines' sources. */
  lemma WantedBoth(es: seq<SourceEntry>, ps: seq<Para>, cfg: Cfg, t: Tuple)
    requires MeansLines(ps, es)
    ensures (exists i :: 0 <= i < |ps| && ParaWanted(ps[i], cfg, t)) <==> Wanted(es, cfg, t)
  {
    if i :| 0 <= i < |ps| && ParaWanted(ps[i], cfg, t) {
      StanzaWanted(es, ps, cfg, t, i);
    }
    if Wanted(es, cfg, t) {
      var i := WantedStanza(es, ps, cfg, t);
    }
  }

  /** The active source `q` keeps its suite but has no component left, or had none. */
  ghost predicate SourceWithout(es: seq<SourceEntry>, cfg: Cfg, q: Key) {
    && AptConvert.Listed(es, q) && !q.disabled && cfg.suite(q.dist) !in cfg.suitesOff
    && forall c :: c in CompsOf(es, q) ==> cfg.CompOff(c)
  }

  /** Disabling components takes all of them from some active source. */
  ghost predicate Emptied(es: seq<SourceEntry>, cfg: Cfg) {
    exists q :: SourceWithout(es, cfg, q) && CompsOf(es, q) != {}
  }

  /** Some active source has no components to begin with, as a flat repository has none. */
  ghost predicate Bare(es: seq<SourceEntry>, cfg: Cfg) {
    exists q :: SourceWithout(es, cfg, q) && CompsOf(es, q) == {}
  }

  ghost predicate HasEmptyStanza(ps: seq<Para>) {
    exists k :: 0 <= k < |ps| && ps[k].enabled && ps[k].comps == []
  }

  lemma EmptyStanzaSource(es: seq<SourceEntry>, ps: seq<Para>, cfg: Cfg, i: nat, r: Para) returns (q: Key)
    requires MeansLines(ps, es) && i < |ps| && ps[i].types != [] && ps[i].uris != []
    requires Becomes(ps[i], cfg, r) && r.suites != [] && r.enabled && r.comps == []
    ensures SourceWithout(es, cfg, q)
  {
    var p := ps[i];
    assert r.suites[0] in ToSet(r.suites);
    assert r.suites[0] in RenderAll(p.suites, cfg.suite);
    var s :| 0 <= s < |p.suites| && cfg.suite(p.suites[s]) == r.suites[0];
    q := Key(false, p.types[0], p.uris[0], p.suites[s]);
    assert CoversPara(p, q);
    assert ParasMean(ps, q, ToSet(p.comps));
    forall c | c in CompsOf(es, q) ensures cfg.CompOff(c) {
      assert c in ToSet(p.comps);
      assert c !in CompsLeft(p, cfg);
    }
  }

  lemma SourceEmptiesStanza(es: seq<SourceEntry>, ps: seq<Para>, cfg: Cfg, q: Key) returns (i: nat)
    requires MeansLines(ps, es) && SourceWithout(es, cfg, q)
    ensures i < |ps| && ps[i].enabled && SuitesLeft(ps[i], cfg) != {} && CompsLeft(ps[i], cfg) == {}
  {
    assert ParasMean(ps, q, CompsOf(es, q));
    i :| 0 <= i < |ps| && CoversPara(ps[i], q) && ToSet(ps[i].comps) == CompsOf(es, q);
    var s :| 0 <= s < |ps[i].suites| && ps[i].suites[s] == q.dist;
    assert cfg.suite(q.dist) in RenderAll(ps[i].suites, cfg.suite);
    assert cfg.suite(q.dist) in SuitesLeft(ps[i], cfg);
    forall c | c in ps[i].comps ensures cfg.CompOff(c) { assert c in ToSet(ps[i].comps); }
  }

  lemma EmptyStanzaExactly(es: seq<SourceEntry>, ps: seq<Para>, cfg: Cfg, out: seq<Para>)
    requires MeansLines(ps, es) && Filled(ps) && Customized(ps, cfg, out)
    ensures HasEmptyStanza(out) <==> Emptied(es, cfg) || Bare(es, cfg)
  {
    if k :| 0 <= k < |out| && out[k].enabled && out[k].comps == [] {
      var i := CameFrom(ps, cfg, out, k);
      var q := EmptyStanzaSource(es, ps, cfg, i, out[k]);
      assert if CompsOf(es, q) != {} then Emptied(es, cfg) else Bare(es, cfg);
    }
    if q :| SourceWithout(es, cfg, q) {
      var i := SourceEmptiesStanza(es, ps, cfg, q);
      var k := WentTo(ps, cfg, out, i);
      EmptyToSet(out[k].comps);
    }
  }

  lemma OffersExactly(es: seq<SourceEntry>, ps: seq<Para>, cfg: Cfg, out: seq<Para>, t: Tuple)
    requires MeansLines(ps, es) && Customized(ps, cfg, out)
    ensures ParasOffer(out, t) <==> Wanted(es, cfg, t)
  {
    WantedBoth(es, ps, cfg, t);
    if k :| 0 <= k < |out| && OffersPara(out[k], t) {
      var i := CameFrom(ps, cfg, out, k);
      BecomesOffers(ps[i], cfg, out[k], t);
    }
    if i :| 0 <= i < |ps| && ParaWanted(ps[i], cfg, t) {
      var k := WentTo(ps, cfg, out, i);
      BecomesOffers(ps[i], cfg, out[k], t);
    }
  }

  /** Every suite that survives conversion is disabled. */
  ghost predicate AllSuitesOff(es: seq<SourceEntry>, cfg: Cfg) {
    forall i :: 0 <= i < |es| && Survives(es[i]) ==> cfg.suite(es[i].dist) in cfg.suitesOff
  }

  /** A suite left in a stanza comes from a line that survives. */
  lemma SuiteSource(es: seq<SourceEntry>, ps: seq<Para>, cfg: Cfg, i: nat, r: Para) returns (j: nat)
    requires MeansLines(ps, es) && i < |ps| && ps[i].types != [] && ps[i].uris != []
    requires Becomes(ps[i], cfg, r) && r.suites != []
    ensures j < |es| && Survives(es[j]) && cfg.suite(es[j].dist) !in cfg.suitesOff
  {
    var p := ps[i];
    assert r.suites[0] in ToSet(r.suites);
    assert r.suites[0] in RenderAll(p.suites, cfg.suite);
    var s :| 0 <= s < |p.suites| && cfg.suite(p.suites[s]) == r.suites[0];
    var q := Key(!p.enabled, p.types[0], p.uris[0], p.suites[s]);
    assert CoversPara(p, q);
    assert ParasMean(ps, q, ToSet(p.comps));
    j :| 0 <= j < |es| && Survives(es[j]) && KeyOf(es[j]) == q;
  }

  lemma NothingStays(es: seq<SourceEntry>, ps: seq<Para>, cfg: Cfg, out: seq<Para>)
    requires MeansLines(ps, es) && Filled(ps) && Customized(ps, cfg, out)
    ensures out == [] <==> AllSuitesOff(es, cfg)
  {
    if out == [] {
      forall i | 0 <= i < |es| && Survives(es[i]) ensures cfg.suite(es[i].dist) in cfg.suitesOff {
        var q := KeyOf(es[i]);
        assert AptConvert.Listed(es, q);
        assert ParasMean(ps, q, CompsOf(es, q));
        var k :| 0 <= k < |ps| && CoversPara(ps[k], q) && ToSet(ps[k].comps) == CompsOf(es, q);
        StayingMembers(ps, cfg, ps[k]);
        var s :| 0 <= s < |ps[k].suites| && ps[k].suites[s] == q.dist;
        assert cfg.suite(q.dist) in RenderAll(ps[k].suites, cfg.suite);
        assert cfg.suite(q.dist) !in SuitesLeft(ps[k], cfg);
      }
    } else {
      var i := CameFrom(ps, cfg, out, 0);
      var q := SuiteSource(es, ps, cfg, i, out[0]);
    }
  }

  /** Rendering gives single words for single words. */
  ghost predicate TokenRendering(cfg: Cfg) {
    forall x :: Token(x) ==> Token(cfg.uri(x)) && Token(cfg.suite(x))
  }

  lemma BecomesPrintable(p: Para, cfg: Cfg, r: Para)
    requires Printable(p) && TokenRendering(cfg) && Becomes(p, cfg, r)
    ensures Printable(r)
  {
    forall t | t in r.types ensures Token(t) {
      assert t in ToSet(r.types);
    }
    forall u | u in r.uris ensures Token(u) {
      assert u in ToSet(r.uris);
    }
    forall s | s in r.suites ensures Token(s) {
      assert s in ToSet(r.suites);
    }
    forall c | c in r.comps ensures Token(c) {
      assert c in ToSet(r.comps);
    }
  }

  lemma CustomizedPrintable(ps: seq<Para>, cfg: Cfg, out: seq<Para>)
    requires Customized(ps, cfg, out) && TokenRendering(cfg) && forall p :: p in ps ==> Printable(p)
    ensures forall r :: r in out ==> Printable(r)
  {
    forall r | r in out ensures Printable(r) {
      var k :| 0 <= k < |out| && out[k] == r;
      var i := CameFrom(ps, cfg, out, k);
      BecomesPrintable(ps[i], cfg, r);
    }
  }

  /** What the deb822 generator promises of its stanzas: they offer exactly what is wanted, each keeps a suite,
      one is enabled without components exactly when some active source loses all of its components or never had
      any, and there is none at all exactly when every suite is disabled. */
  ghost predicate Delivers(out: seq<Para>, es: seq<SourceEntry>, cfg: Cfg) {
    && (forall t :: ParasOffer(out, t) <==> Wanted(es, cfg, t))
    && (forall k :: 0 <= k < |out| ==> out[k].suites != [] && InPrintOrder(out[k]))
    && (HasEmptyStanza(out) <==> Emptied(es, cfg) || Bare(es, cfg))
    && (out == [] <==> AllSuitesOff(es, cfg))
  }

  method CustomizeConverted(es: seq<SourceEntry>, ps: seq<Para>, cfg: Cfg) returns (out: seq<Para>)
    requires MeansLines(ps, es) && Filled(ps)
    ensures Delivers(out, es, cfg) && Customized(ps, cfg, out)
  {
    out := CustomizeAll(ps, cfg);
    forall t ensures ParasOffer(out, t) <==> Wanted(es, cfg, t) {
      OffersExactly(es, ps, cfg, out, t);
    }
    EmptyStanzaExactly(es, ps, cfg, out);
    NothingStays(es, ps, cfg, out);
  }

  /** The file is the stanzas printed, and where rendering keeps words whole it reads back as those stanzas;
      a file without stanzas is empty, and refused by the parser. */
  ghost predicate Written(file: string, stanzas: seq<Para>, cfg: Cfg) {
    && file == PrintSources(stanzas)
    && (TokenRendering(cfg) ==> ParseSources(file) == if stanzas == [] then Err(NoSources) else Ok(stanzas))
    && (stanzas == [] <==> file == "")
  }

  /** The deb822 generator on a one-line template, up to the file it writes and the stanzas in it: it fails
      exactly when no line survives the conversion. */
  method GenerateDeb822(text: string, readLines: string -> seq<SourceEntry>, mirrors: set<string>, cfg: Cfg)
    returns (r: Result<string, Error>, stanzas: seq<Para>)
    requires ParseSources(text).Err? && WellFormed(readLines(text))
    ensures r.Ok? <==> SomeSurvive(readLines(text))
    ensures r.Ok? ==> Delivers(stanzas, readLines(text), cfg) && Written(r.value, stanzas, cfg)
  {
    var es := readLines(text);
    var converted := MaybeConvert(text, readLines, mirrors);
    var parsed := ParseSources(converted);
    if parsed.Err? {
      r, stanzas := Err(parsed.error), [];
    } else {
      stanzas := CustomizeConverted(es, parsed.value, cfg);
      if TokenRendering(cfg) {
        CustomizedPrintable(parsed.value, cfg, stanzas);
        PrintParseRoundTrip(stanzas);
      }
      PrintedNotEmpty(stanzas);
      r := Ok(PrintSources(stanzas));
    }
  }

  /** For the same one-line template and configuration, both generators enable the same sources,
      and the main component of a suite that stays enabled is never lost. */
  method GeneratorsAgree(text: string, readLines: string -> seq<SourceEntry>, mirrors: set<string>, cfg: Cfg)
    returns (legacy: seq<SourceEntry>, r: Result<string, Error>, stanzas: seq<Para>)
    requires ParseSources(text).Err? && WellFormed(readLines(text))
    ensures r.Ok? <==> SomeSurvive(readLines(text))
    ensures r.Ok? ==> Written(r.value, stanzas, cfg) && forall t :: LinesOffer(legacy, t) <==> ParasOffer(stanzas, t)
    ensures r.Err? ==> forall t :: !LinesOffer(legacy, t)
    ensures r.Ok? ==>
      forall e :: e in readLines(text) && Active(e) && "main" in e.comps && cfg.suite(e.dist) !in cfg.suitesOff ==>
      ParasOffer(stanzas, Tuple(e.typ, cfg.uri(e.uri), cfg.suite(e.dist), "main"))
  {
    var es := readLines(text);
    legacy := GenerateLegacy(es, cfg);
    r, stanzas := GenerateDeb822(text, readLines, mirrors, cfg);
    forall e | e in es && Active(e) && "main" in e.comps && cfg.suite(e.dist) !in cfg.suitesOff
      ensures Wanted(es, cfg, Tuple(e.typ, cfg.uri(e.uri), cfg.suite(e.dist), "main"))
    {
      var i :| 0 <= i < |es| && es[i] == e;
      var t := Tuple(e.typ, cfg.uri(e.uri), cfg.suite(e.dist), "main");
      assert LineWanted(es[i], cfg, t);
    }
    if !SomeSurvive(es) {
      forall t ensures !Wanted(es, cfg, t) {
        assert forall i :: 0 <= i < |es| ==> !Survives(es[i]);
      }
    }
  }

  /** The two outputs can still differ: a source whose components are all disabled is switched off by the one-line
      generator but left as an enabled stanza without components by the deb822 one. */
  method EmptiedDiffer(text: string, readLines: string -> seq<SourceEntry>, mirrors: set<string>, cfg: Cfg)
    returns (legacy: seq<SourceEntry>, r: Result<string, Error>, stanzas: seq<Para>)
    requires ParseSources(text).Err? && WellFormed(readLines(text)) && Emptied(readLines(text), cfg)
    requires forall e :: e in readLines(text) ==> e.comps != []
    ensures r.Ok? && Written(r.value, stanzas, cfg) && HasEmptyStanza(stanzas)
    ensures forall x :: x in legacy && Active(x) ==> x.comps != []
  {
    var es := readLines(text);
    legacy := GenerateLegacy(es, cfg);
    r, stanzas := GenerateDeb822(text, readLines, mirrors, cfg);
    ghost var q :| SourceWithout(es, cfg, q);
    assert SomeSurvive(es);
  }

  const UNIVERSE_ONLY := SourceEntry(false, false, "deb", "http://a", "noble", ["universe"])

  lemma OneEmptied(e: SourceEntry, cfg: Cfg)
    requires Active(e) && Survives(e) && cfg.suite(e.dist) !in cfg.suitesOff && e.comps != []
    requires forall c :: c in e.comps ==> cfg.CompOff(c)
    ensures Emptied([e], cfg)
  {
    var es := [e];
    assert Survives(es[0]) && KeyOf(es[0]) == KeyOf(e);
    assert SourceWithout(es, cfg, KeyOf(e));
    var c := e.comps[0];
    assert c in es[0].comps;
    assert c in CompsOf(es, KeyOf(e));
  }

  lemma UniverseTokens()
    ensures Token("deb") && Token("http://a") && Token("noble") && Tokens(["universe"])
  {
    assert Token("universe");
  }

  /** So they do for a template that is a line of universe alone, with universe disabled. */
  method EmptiedExample(text: string, readLines: string -> seq<SourceEntry>, mirrors: set<string>, cfg: Cfg)
    returns (legacy: seq<SourceEntry>, r: Result<string, Error>, stanzas: seq<Para>)
    requires ParseSources(text).Err? && readLines(text) == [UNIVERSE_ONLY]
    requires cfg.suite("noble") == "noble" && cfg.suitesOff == {} && cfg.compsOff == {"universe"}
    ensures Emptied([UNIVERSE_ONLY], cfg)
    ensures r.Ok? && Written(r.value, stanzas, cfg) && HasEmptyStanza(stanzas)
    ensures forall x :: x in legacy && Active(x) ==> x.comps != []
  {
    UniverseTokens();
    OneEmptied(UNIVERSE_ONLY, cfg);
    legacy, r, stanzas := EmptiedDiffer(text, readLines, mirrors, cfg);
  }
}
