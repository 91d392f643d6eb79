/** Stanzas as text: printing them, and parsing them back paragraph by paragraph
    (paragraph syntax of section 5.1 of the Debian Policy Manual). */
module Deb822Text {
  import opened Text
  import opened Wrappers

  /** A stanza with its fields already arranged for printing. */
  datatype Para = Para(enabled: bool, types: seq<string>, uris: seq<string>, suites: seq<string>, comps: seq<string>,
                       signedBy: Option<string>)

  datatype Error = MissingField(name: string) | NoSources

  // ----- Characters and tokens -----

  predicate IsSpace(c: char) { c in " \t\n\r\U{0B}\U{0C}" }

  predicate IsLetter(c: char) { 'a' <= c <= 'z' || 'A' <= c <= 'Z' }

  function LowerChar(c: char): char { if 'A' <= c <= 'Z' then (c as int + 32) as char else c }

  function UpperChar(c: char): char { if 'a' <= c <= 'z' then (c as int - 32) as char else c }

  function Lower(s: string): string { seq(|s|, i requires 0 <= i < |s| => LowerChar(s[i])) }

  function Title(s: string): string {
    seq(|s|, i requires 0 <= i < |s| => if i > 0 && IsLetter(s[i - 1]) then LowerChar(s[i]) else UpperChar(s[i]))
  }

  predicate Token(s: string) { s != "" && forall c :: c in s ==> !IsSpace(c) }

  predicate Tokens(ts: seq<string>) { forall t :: t in ts ==> Token(t) }

  function ChunkLength<T>(s: seq<T>, gap: T -> bool): (n: nat)
    ensures n <= |s| && (s != [] && !gap(s[0]) ==> n > 0)
  {
    if s == [] || gap(s[0]) then 0 else 1 + ChunkLength(s[1..], gap)
  }

  /** The maximal stretches of `s` without a gap: the words of a line, the paragraphs of a file. */
  function Chunks<T>(s: seq<T>, gap: T -> bool): seq<seq<T>>
    decreases |s|
  {
    if s == [] then []
    else if gap(s[0]) then Chunks(s[1..], gap)
    else
      var n := ChunkLength(s, gap);
      [s[..n]] + Chunks(s[n..], gap)
  }

  lemma {:induction false} ChunkLengthIs<T>(c: seq<T>, rest: seq<T>, gap: T -> bool)
    requires forall x :: x in c ==> !gap(x)
    requires rest == [] || gap(rest[0])
    ensures ChunkLength(c + rest, gap) == |c|
  {
    if c == [] {
      assert c + rest == rest;
    } else {
      assert (c + rest)[1..] == c[1..] + rest;
      ChunkLengthIs(c[1..], rest, gap);
    }
  }

  lemma FirstChunk<T>(c: seq<T>, rest: seq<T>, gap: T -> bool)
    requires c != [] && (forall x :: x in c ==> !gap(x)) && (rest == [] || gap(rest[0]))
    ensures Chunks(c + rest, gap) == [c] + Chunks(rest, gap)
  {
    ChunkLengthIs(c, rest, gap);
    assert (c + rest)[..|c|] == c && (c + rest)[|c|..] == rest;
  }

  lemma SkipGap<T>(g: T, rest: seq<T>, gap: T -> bool)
    requires gap(g)
    ensures Chunks([g] + rest, gap) == Chunks(rest, gap)
  {
    assert ([g] + rest)[1..] == rest;
  }

  function Words(s: string): seq<string> { Chunks(s, IsSpace) }

  lemma {:induction false} WordsOfJoined(ts: seq<string>)
    requires Tokens(ts)
    ensures Words(Join(' ', ts)) == ts
  {
    if ts != [] {
      var t := ts[0];
      assert t in ts;
      if |ts| == 1 {
        assert t + [] == t;
        FirstChunk(t, [], IsSpace);
      } else {
        var rest := Join(' ', ts[1..]);
        WordsOfJoined(ts[1..]);
        SkipGap(' ', rest, IsSpace);
        assert t + [' '] + rest == t + ([' '] + rest);
        FirstChunk(t, [' '] + rest, IsSpace);
        assert ts == [t] + ts[1..];
      }
    }
  }

  // ----- Printing -----

  function FieldLine(key: string, value: string): string { key + ": " + value }

  function CoreLines(t: string, u: string, s: string, c: string): seq<string> {
    [FieldLine("Types", t), FieldLine("URIs", u), FieldLine("Suites", s), FieldLine("Components", c)]
  }

  function EnabledLines(enabled: bool): seq<string> {
    if enabled then [] else [FieldLine("Enabled", "no")]
  }

  function StanzaLines(p: Para): seq<string> {
    EnabledLines(p.enabled) +
    CoreLines(Join(' ', p.types), Join(' ', p.uris), Join(' ', p.suites), Join(' ', p.comps)) +
    (match p.signedBy case Some(v) => [FieldLine("Signed-By", v)] case None => [])
  }

  /** Each line of a stanza ends with a newline. */
  function EndLines(lines: seq<string>): string {
    if lines == [] then "" else lines[0] + "\n" + EndLines(lines[1..])
  }

  function PrintStanza(p: Para): string { EndLines(StanzaLines(p)) }

  function PrintSources(ps: seq<Para>): string {
    Join('\n', seq(|ps|, i requires 0 <= i < |ps| => PrintStanza(ps[i])))
  }

  // ----- Parsing -----

  predicate Blank(line: string) { forall c :: c in line ==> IsSpace(c) }

  function NormalizeKey(k: string): string { if Lower(k) == "uris" then "URIs" else Title(k) }

  function Strip(s: string): string
    decreases |s|
  {
    if s == "" then ""
    else if IsSpace(s[0]) then Strip(s[1..])
    else if IsSpace(s[|s| - 1]) then Strip(s[..|s| - 1])
    else s
  }

  /** A field line holds a colon after a key without spaces; any other line is passed over. */
  predicate IsField(line: string) {
    var n := Find(line, ':');
    0 < n < |line| && Token(line[..n])
  }

  /** The fields of a paragraph; a later field of the same key wins. */
  function Fields(lines: seq<string>): map<string, string> {
    if lines == [] then map[]
    else
      var init, line := lines[..|lines| - 1], lines[|lines| - 1];
      if IsField(line) then
        var n := Find(line, ':');
        Fields(init)[NormalizeKey(line[..n]) := Strip(line[n + 1..])]
      else Fields(init)
  }

  function ParsePara(lines: seq<string>): Result<Para, Error> {
    var f := Fields(lines);
    if "Types" !in f then Err(MissingField("Types"))
    else if "URIs" !in f then Err(MissingField("URIs"))
    else if "Suites" !in f then Err(MissingField("Suites"))
    else if "Components" !in f then Err(MissingField("Components"))
    else Ok(Para(!("Enabled" in f && Lower(f["Enabled"]) == "no"),
                 Words(f["Types"]), Words(f["URIs"]), Words(f["Suites"]), Words(f["Components"]),
                 if "Signed-By" in f then Some(f["Signed-By"]) else None))
  }

  function ParseParas(paras: seq<seq<string>>): Result<seq<Para>, Error> {
    if paras == [] then Ok([])
    else
      match ParsePara(paras[0])
      case Err(e) => Err(e)
      case Ok(p) => (match ParseParas(paras[1..]) case Err(e) => Err(e) case Ok(ps) => Ok([p] + ps))
  }

  predicate Comment(line: string) { line != "" && line[0] == '#' }

  /** Comment lines are dropped before the text falls into paragraphs. */
  function WithoutComments(lines: seq<string>): seq<string> {
    if lines == [] then []
    else if Comment(lines[0]) then WithoutComments(lines[1..])
    else [lines[0]] + WithoutComments(lines[1..])
  }

  function ParseSources(text: string): Result<seq<Para>, Error> {
    match ParseParas(Chunks(WithoutComments(Split('\n', text)), Blank))
    case Err(e) => Err(e)
    case Ok(ps) => if ps == [] then Err(NoSources) else Ok(ps)
  }

  lemma {:induction false} NoComments(lines: seq<string>)
    requires forall l :: l in lines ==> !Comment(l)
    ensures WithoutComments(lines) == lines
  {
    if lines != [] {
      NoComments(lines[1..]);
    }
  }

  // ----- Printing and parsing undo each other -----

  predicate Printable(p: Para) {
    && Tokens(p.types) && Tokens(p.uris) && Tokens(p.suites) && Tokens(p.comps)
    && (p.signedBy.Some? ==> Token(p.signedBy.value))
  }

  lemma KeyNames()
    ensures NormalizeKey("Enabled") == "Enabled" && NormalizeKey("Types") == "Types" && NormalizeKey("URIs") == "URIs"
    ensures NormalizeKey("Suites") == "Suites" && NormalizeKey("Components") == "Components"
    ensures NormalizeKey("Signed-By") == "Signed-By" && Lower("no") == "no"
  {
    assert Lower("URIs") == "uris";
    assert Title("Enabled") == "Enabled";
    assert Title("Types") == "Types";
    assert Title("Suites") == "Suites";
    assert Title("Components") == "Components";
    assert Title("Signed-By") == "Signed-By";
    assert Lower("Enabled")[0] == 'e' && Lower("Types")[0] == 't' && Lower("Suites")[0] == 's';
    assert Lower("Components")[0] == 'c' && Lower("Signed-By")[0] == 's';
  }

  /** A field value that stripping leaves alone and that stays on its line. */
  predicate Trimmed(v: string) {
    '\n' !in v && (v != "" ==> !IsSpace(v[0]) && !IsSpace(v[|v| - 1]))
  }

  lemma StripPadded(v: string)
    requires Trimmed(v)
    ensures Strip([' '] + v) == v
  {
    assert ([' '] + v)[1..] == v;
  }

  lemma {:induction false} JoinedTrimmed(ts: seq<string>)
    requires Tokens(ts)
    ensures Trimmed(Join(' ', ts)) && (ts != [] ==> Join(' ', ts) != "")
  {
    if ts != [] {
      var t := ts[0];
      assert t in ts && t[0] in t && t[|t| - 1] in t;
      if |ts| > 1 {
        JoinedTrimmed(ts[1..]);
      }
    }
  }

  predicate PlainKey(k: string) { Token(k) && ':' !in k && k[0] != '#' && NormalizeKey(k) == k }

  lemma FieldsSnoc(init: seq<string>, k: string, v: string)
    requires PlainKey(k) && Trimmed(v)
    ensures Fields(init + [FieldLine(k, v)]) == Fields(init)[k := v]
    ensures !Blank(FieldLine(k, v)) && ('\n' !in k ==> '\n' !in FieldLine(k, v))
  {
    var line := FieldLine(k, v);
    assert line == k + [':'] + ([' '] + v);
    FindAppend(k, ':', [' '] + v);
    assert line[..|k|] == k && line[|k| + 1..] == [' '] + v;
    StripPadded(v);
    assert (init + [line])[..|init|] == init;
    assert line[|k|] == ':' && line[|k|] in line && !IsSpace(':');
  }

  predicate GoodLines(lines: seq<string>) { forall l :: l in lines ==> !Blank(l) && '\n' !in l && !Comment(l) }

  lemma LettersArePlain(k: string)
    requires k != "" && forall i :: 0 <= i < |k| ==> IsLetter(k[i]) || k[i] == '-'
    requires NormalizeKey(k) == k
    ensures PlainKey(k)
  {
    assert k[0] != '#';
  }

  lemma PlainKeys()
    ensures PlainKey("Enabled") && PlainKey("Types") && PlainKey("URIs")
    ensures PlainKey("Suites") && PlainKey("Components") && PlainKey("Signed-By")
  {
    KeyNames();
    LettersArePlain("Enabled");
    LettersArePlain("Types");
    LettersArePlain("URIs");
    LettersArePlain("Suites");
    LettersArePlain("Components");
    LettersArePlain("Signed-By");
  }

  lemma FieldsSnocGood(init: seq<string>, k: string, v: string)
    requires PlainKey(k) && Trimmed(v) && GoodLines(init)
    ensures Fields(init + [FieldLine(k, v)]) == Fields(init)[k := v] && GoodLines(init + [FieldLine(k, v)])
  {
    FieldsSnoc(init, k, v);
    assert !IsSpace(':') && '\n' !in k by { assert IsSpace('\n'); }
  }

  lemma TwoFields(l0: seq<string>, k1: string, v1: string, k2: string, v2: string)
    requires PlainKey(k1) && PlainKey(k2) && Trimmed(v1) && Trimmed(v2) && GoodLines(l0)
    ensures var all := l0 + [FieldLine(k1, v1), FieldLine(k2, v2)];
      Fields(all) == Fields(l0)[k1 := v1][k2 := v2] && GoodLines(all)
  {
    var line1, line2 := FieldLine(k1, v1), FieldLine(k2, v2);
    FieldsSnocGood(l0, k1, v1);
    FieldsSnocGood(l0 + [line1], k2, v2);
    assert l0 + [line1, line2] == l0 + [line1] + [line2];
  }

  lemma FourFields(l0: seq<string>, k1: string, v1: string, k2: string, v2: string, k3: string, v3: string, k4: string,
                   v4: string)
    requires PlainKey(k1) && PlainKey(k2) && PlainKey(k3) && PlainKey(k4)
    requires Trimmed(v1) && Trimmed(v2) && Trimmed(v3) && Trimmed(v4) && GoodLines(l0)
    ensures var all := l0 + [FieldLine(k1, v1), FieldLine(k2, v2), FieldLine(k3, v3), FieldLine(k4, v4)];
      Fields(all) == Fields(l0)[k1 := v1][k2 := v2][k3 := v3][k4 := v4] && GoodLines(all)
  {
    var l2 := l0 + [FieldLine(k1, v1), FieldLine(k2, v2)];
    TwoFields(l0, k1, v1, k2, v2);
    TwoFields(l2, k3, v3, k4, v4);
    assert l0 + [FieldLine(k1, v1), FieldLine(k2, v2), FieldLine(k3, v3), FieldLine(k4, v4)]
        == l2 + [FieldLine(k3, v3), FieldLine(k4, v4)];
  }

  lemma EnabledFields(enabled: bool)
    ensures GoodLines(EnabledLines(enabled))
    ensures Fields(EnabledLines(enabled)) == if enabled then map[] else map["Enabled" := "no"]
  {
    PlainKeys();
    FieldsSnocGood([], "Enabled", "no");
    assert [] + [FieldLine("Enabled", "no")] == [FieldLine("Enabled", "no")];
  }

  function CoreMap(p: Para): map<string, string> {
    (if p.enabled then map[] else map["Enabled" := "no"])
      ["Types" := Join(' ', p.types)]["URIs" := Join(' ', p.uris)]
      ["Suites" := Join(' ', p.suites)]["Components" := Join(' ', p.comps)]
  }

  function FirstLines(p: Para): seq<string> {
    EnabledLines(p.enabled) + CoreLines(Join(' ', p.types), Join(' ', p.uris), Join(' ', p.suites), Join(' ', p.comps))
  }

  lemma CoreFields(p: Para)
    requires Printable(p)
    ensures Fields(FirstLines(p)) == CoreMap(p) && GoodLines(FirstLines(p)) && FirstLines(p) != []
  {
    JoinedTrimmed(p.types);
    JoinedTrimmed(p.uris);
    JoinedTrimmed(p.suites);
    JoinedTrimmed(p.comps);
    EnabledFields(p.enabled);
    PlainKeys();
    FourFields(EnabledLines(p.enabled), "Types", Join(' ', p.types), "URIs", Join(' ', p.uris),
               "Suites", Join(' ', p.suites), "Components", Join(' ', p.comps));
  }

  lemma StanzaFields(p: Para)
    requires Printable(p)
    ensures StanzaLines(p) != [] && GoodLines(StanzaLines(p))
    ensures Fields(StanzaLines(p)) ==
      if p.signedBy.Some? then CoreMap(p)["Signed-By" := p.signedBy.value] else CoreMap(p)
  {
    CoreFields(p);
    match p.signedBy {
      case Some(v) =>
        assert v[0] in v && v[|v| - 1] in v && Trimmed(v);
        PlainKeys();
        FieldsSnocGood(FirstLines(p), "Signed-By", v);
        assert StanzaLines(p) == FirstLines(p) + [FieldLine("Signed-By", v)];
      case None =>
        assert StanzaLines(p) == FirstLines(p);
    }
  }

  lemma StanzaParses(p: Para)
    requires Printable(p)
    ensures ParsePara(StanzaLines(p)) == Ok(p)
  {
    StanzaFields(p);
    KeyNames();
    WordsOfJoined(p.types);
    WordsOfJoined(p.uris);
    WordsOfJoined(p.suites);
    WordsOfJoined(p.comps);
  }

  /** The lines of a printed file: each stanza's lines, then an empty one. */
  function AllLines(ps: seq<Para>): seq<string> {
    if ps == [] then [] else StanzaLines(ps[0]) + [""] + AllLines(ps[1..])
  }

  lemma {:induction false} EndLinesJoined(lines: seq<string>)
    ensures EndLines(lines) == Join('\n', lines + [""])
  {
    if lines != [] {
      EndLinesJoined(lines[1..]);
      assert (lines + [""])[1..] == lines[1..] + [""];
    }
  }

  lemma {:induction false} JoinAppend(sep: char, a: seq<string>, b: seq<string>)
    requires a != [] && b != []
    ensures Join(sep, a + b) == Join(sep, a) + [sep] + Join(sep, b)
  {
    if |a| == 1 {
      assert (a + b)[1..] == b;
    } else {
      JoinAppend(sep, a[1..], b);
      assert (a + b)[1..] == a[1..] + b;
    }
  }

  lemma {:induction false} PrintedLines(ps: seq<Para>)
    requires ps != []
    ensures PrintSources(ps) == Join('\n', AllLines(ps)) && AllLines(ps) != []
  {
    var first := StanzaLines(ps[0]) + [""];
    var texts := seq(|ps|, i requires 0 <= i < |ps| => PrintStanza(ps[i]));
    EndLinesJoined(StanzaLines(ps[0]));
    if |ps| == 1 {
      assert AllLines(ps) == first;
    } else {
      PrintedLines(ps[1..]);
      JoinAppend('\n', first, AllLines(ps[1..]));
      assert texts[1..] == seq(|ps| - 1, i requires 0 <= i < |ps| - 1 => PrintStanza(ps[1..][i]));
    }
  }

  lemma FirstBlock(lines: seq<string>, rest: seq<string>)
    requires lines != [] && GoodLines(lines)
    ensures Chunks(lines + [""] + rest, Blank) == [lines] + Chunks(rest, Blank)
  {
    SkipGap("", rest, Blank);
    FirstChunk(lines, [""] + rest, Blank);
    assert lines + [""] + rest == lines + ([""] + rest);
  }

  lemma FirstParsed(lines: seq<string>, p: Para, chunks: seq<seq<string>>, ps: seq<Para>)
    requires ParsePara(lines) == Ok(p) && ParseParas(chunks) == Ok(ps)
    ensures ParseParas([lines] + chunks) == Ok([p] + ps)
  {
    assert ([lines] + chunks)[1..] == chunks;
  }

  /** One stanza more in front. */
  lemma FirstStanza(p: Para, rest: seq<string>, ps: seq<Para>)
    requires Printable(p) && ParseParas(Chunks(rest, Blank)) == Ok(ps)
    ensures ParseParas(Chunks(StanzaLines(p) + [""] + rest, Blank)) == Ok([p] + ps)
  {
    assert StanzaLines(p) != [] && GoodLines(StanzaLines(p)) by {
      StanzaFields(p);
    }
    FirstBlock(StanzaLines(p), rest);
    StanzaParses(p);
    FirstParsed(StanzaLines(p), p, Chunks(rest, Blank), ps);
  }

  lemma {:induction false} LinesPlain(ps: seq<Para>)
    requires forall p :: p in ps ==> Printable(p)
    ensures forall l :: l in AllLines(ps) ==> '\n' !in l && !Comment(l)
  {
    if ps != [] {
      assert ps[0] in ps;
      StanzaFields(ps[0]);
      LinesPlain(ps[1..]);
    }
  }

  lemma {:induction false} LinesParse(ps: seq<Para>)
    requires forall p :: p in ps ==> Printable(p)
    ensures ParseParas(Chunks(AllLines(ps), Blank)) == Ok(ps)
  {
    if ps != [] {
      assert ps[0] in ps;
      LinesParse(ps[1..]);
      FirstStanza(ps[0], AllLines(ps[1..]), ps[1..]);
      assert ps == [ps[0]] + ps[1..];
    }
  }

  /** Parsing what was printed gives the stanzas back, in order; no stanza at all is an error. */
  lemma PrintParseRoundTrip(ps: seq<Para>)
    requires forall p :: p in ps ==> Printable(p)
    ensures ParseSources(PrintSources(ps)) == if ps == [] then Err(NoSources) else Ok(ps)
  {
    if ps == [] {
      FindNone("", '\n');
      assert Split('\n', "") == [""];
      NoComments([""]);
      SkipGap("", [], Blank);
      assert [""] + [] == [""];
    } else {
      PrintedLines(ps);
      LinesPlain(ps);
      LinesParse(ps);
      SplitJoin('\n', AllLines(ps));
      NoComments(AllLines(ps));
    }
  }

  /** Only no stanza prints as an empty file. */
  lemma PrintedNotEmpty(ps: seq<Para>)
    ensures PrintSources(ps) == "" <==> ps == []
  {
    if ps != [] {
      assert StanzaLines(ps[0]) != [];
      var texts := seq(|ps|, i requires 0 <= i < |ps| => PrintStanza(ps[i]));
      assert texts[0] == PrintStanza(ps[0]) != "";
      assert |Join('\n', texts)| >= |texts[0]|;
    }
  }

  /** Distinct stanza lists print differently. */
  lemma PrintInjective(ps: seq<Para>, qs: seq<Para>)
    requires (forall p :: p in ps ==> Printable(p)) && (forall q :: q in qs ==> Printable(q))
    requires PrintSources(ps) == PrintSources(qs)
    ensures ps == qs
  {
    PrintParseRoundTrip(ps);
    PrintParseRoundTrip(qs);
  }
}
