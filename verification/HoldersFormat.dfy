/** The diagram of a holders tree, and a reader that recovers the tree from the diagram. */
module HoldersFormat {
  import opened Text
  import opened ShutdownPlan

  /** What the diagram shows of a tree: the names and who holds whom. */
  datatype Shape = Shape(name: string, holders: seq<Shape>)

  function ShapeOf(t: Tree): Shape {
    Shape(t.name, seq(|t.holders|, i requires 0 <= i < |t.holders| => ShapeOf(t.holders[i])))
  }

  ghost predicate NewlineFree(t: Tree) {
    '\n' !in t.name && forall i :: 0 <= i < |t.holders| ==> NewlineFree(t.holders[i])
  }

  function Head(last: bool): string { if last then "`-- " else "|-- " }

  function Rest(last: bool): string { if last then "    " else "|   " }

  function Indented(lines: seq<string>, last: bool): seq<string> {
    seq(|lines|, i requires 0 <= i < |lines| => (if i == 0 then Head(last) else Rest(last)) + lines[i])
  }

  function Lines(t: Tree): seq<string>
    decreases t, 0
  {
    [t.name] + HolderLines(t.holders, |t.holders|)
  }

  /** The lines of the first `n` holders. */
  function HolderLines(hs: seq<Tree>, n: nat): seq<string>
    requires n <= |hs|
    decreases hs, n
  {
    if n == 0 then [] else HolderLines(hs, n - 1) + Indented(Lines(hs[n - 1]), n == |hs|)
  }

  function Diagram(t: Tree): string { Join('\n', Lines(t)) }

  method FormatTree(t: Tree) returns (result: seq<string>)
    ensures result == Lines(t)
    decreases t
  {
    result := [t.name];
    for no := 0 to |t.holders|
      invariant result == [t.name] + HolderLines(t.holders, no)
    {
      var last := no + 1 == |t.holders|;
      var sub := FormatTree(t.holders[no]);
      ghost var before := result;
      for k := 0 to |sub|
        invariant result == before + Indented(sub, last)[..k]
      {
        result := result + [(if k == 0 then Head(last) else Rest(last)) + sub[k]];
      }
    }
  }

  // ----- Reading a diagram back -----

  predicate IsHead(line: string) { |line| >= 2 && line[1] == '-' }

  function Strip(line: string): string { if |line| >= 4 then line[4..] else "" }

  function StripAll(lines: seq<string>): seq<string> {
    seq(|lines|, i requires 0 <= i < |lines| => Strip(lines[i]))
  }

  /** Where the block that starts before `k` ends: at the next head line. */
  function BlockEnd(lines: seq<string>, k: nat): (e: nat)
    requires k <= |lines|
    ensures k <= e <= |lines|
    decreases |lines| - k
  {
    if k == |lines| || IsHead(lines[k]) then k else BlockEnd(lines, k + 1)
  }

  function ReadTree(lines: seq<string>): Shape
    requires |lines| > 0
    decreases |lines|, 0
  {
    Shape(lines[0], ReadHolders(lines[1..]))
  }

  function ReadHolders(lines: seq<string>): seq<Shape>
    decreases |lines|, 1
  {
    if lines == [] then []
    else
      var e := BlockEnd(lines, 1);
      [ReadTree(StripAll(lines[..e]))] + ReadHolders(lines[e..])
  }

  function ReadDiagram(text: string): Shape { ReadTree(Split('\n', text)) }

  /** The lines of the holders from `i` on: the same lines, taken from the front. */
  ghost function LinesFrom(hs: seq<Tree>, i: nat): seq<string>
    requires i <= |hs|
    decreases |hs| - i
  {
    if i == |hs| then [] else Indented(Lines(hs[i]), i + 1 == |hs|) + LinesFrom(hs, i + 1)
  }

  lemma {:induction false} LinesFromFront(hs: seq<Tree>, i: nat)
    requires i <= |hs|
    ensures HolderLines(hs, |hs|) == HolderLines(hs, i) + LinesFrom(hs, i)
    decreases |hs| - i
  {
    if i < |hs| {
      LinesFromFront(hs, i + 1);
    }
  }

  lemma {:induction false} BlockEndIs(lines: seq<string>, k: nat, e: nat)
    requires k <= e <= |lines|
    requires forall j :: k <= j < e ==> !IsHead(lines[j])
    requires e < |lines| ==> IsHead(lines[e])
    ensures BlockEnd(lines, k) == e
    decreases e - k
  {
    if k < e {
      BlockEndIs(lines, k + 1, e);
    }
  }

  lemma IndentedLine(lines: seq<string>, last: bool, i: nat)
    requires i < |lines|
    ensures Strip(Indented(lines, last)[i]) == lines[i]
    ensures IsHead(Indented(lines, last)[i]) <==> i == 0
    ensures '\n' !in lines[i] ==> '\n' !in Indented(lines, last)[i]
  {
    var p := if i == 0 then Head(last) else Rest(last);
    assert |p| == 4 && Indented(lines, last)[i] == p + lines[i];
    assert p[1] == '-' <==> i == 0;
    assert p[0] != '\n' && p[1] != '\n' && p[2] != '\n' && p[3] != '\n';
  }

  lemma {:induction false} ReadsTree(t: Tree)
    ensures ReadTree(Lines(t)) == ShapeOf(t)
    decreases t, 0
  {
    LinesFromFront(t.holders, 0);
    assert Lines(t)[1..] == LinesFrom(t.holders, 0);
    ReadsHolders(t.holders, 0);
    assert ShapeOf(t).holders[0..] == ShapeOf(t).holders;
    var shapes := seq(|t.holders|, i requires 0 <= i < |t.holders| => ShapeOf(t.holders[i]));
    assert shapes[0..] == shapes == ShapeOf(t).holders;
  }

  lemma BlockLines(h: Tree, last: bool)
    ensures var block := Indented(Lines(h), last);
      && block != [] && StripAll(block) == Lines(h)
      && forall k :: 0 <= k < |block| ==> (IsHead(block[k]) <==> k == 0)
  {
    var lines := Lines(h);
    forall k | 0 <= k < |lines|
      ensures Strip(Indented(lines, last)[k]) == lines[k] && (IsHead(Indented(lines, last)[k]) <==> k == 0)
    {
      IndentedLine(lines, last, k);
    }
  }

  /** The first block ends where the next holder's lines start. */
  lemma FirstBlock(hs: seq<Tree>, i: nat)
    requires i < |hs|
    ensures var block := Indented(Lines(hs[i]), i + 1 == |hs|);
      BlockEnd(LinesFrom(hs, i), 1) == |block|
  {
    var block, rest := Indented(Lines(hs[i]), i + 1 == |hs|), LinesFrom(hs, i + 1);
    BlockLines(hs[i], i + 1 == |hs|);
    if i + 1 < |hs| {
      BlockLines(hs[i + 1], i + 2 == |hs|);
    }
    BlockEndIs(block + rest, 1, |block|);
  }

  lemma {:induction false} ReadsHolders(hs: seq<Tree>, i: nat)
    requires i <= |hs|
    ensures ReadHolders(LinesFrom(hs, i)) == seq(|hs|, k requires 0 <= k < |hs| => ShapeOf(hs[k]))[i..]
    decreases hs, |hs| - i
  {
    if i < |hs| {
      var block, rest, all := Indented(Lines(hs[i]), i + 1 == |hs|), LinesFrom(hs, i + 1), LinesFrom(hs, i);
      FirstBlock(hs, i);
      BlockLines(hs[i], i + 1 == |hs|);
      assert all[..|block|] == block && all[|block|..] == rest;
      ReadsTree(hs[i]);
      ReadsHolders(hs, i + 1);
      assert ReadHolders(all) == [ShapeOf(hs[i])] + ReadHolders(rest);
    }
  }

  // ----- The connectors -----

  /** A block hangs from its holder by a corner if it is the last one, by a tee otherwise, with a bar down its side. */
  ghost predicate Drawn(block: seq<string>, last: bool) {
    forall i :: 0 <= i < |block| ==>
      && |block[i]| >= 4
      && block[i][..4] == (if last then (if i == 0 then "`-- " else "    ") else (if i == 0 then "|-- " else "|   "))
  }

  /** So does every block, and within its indentation every block of it. */
  ghost predicate WellDrawn(lines: seq<string>)
    decreases |lines|, 1
  {
    lines != [] ==>
      var e := BlockEnd(lines, 1);
      Drawn(lines[..e], e == |lines|) && TreeDrawn(StripAll(lines[..e])) && WellDrawn(lines[e..])
  }

  ghost predicate TreeDrawn(lines: seq<string>)
    requires |lines| > 0
    decreases |lines|, 0
  {
    WellDrawn(lines[1..])
  }

  lemma BlockDrawn(h: Tree, last: bool)
    ensures Drawn(Indented(Lines(h), last), last)
  {
    var lines := Lines(h);
    forall i | 0 <= i < |lines|
      ensures |Indented(lines, last)[i]| >= 4
      ensures Indented(lines, last)[i][..4] == if i == 0 then Head(last) else Rest(last)
    {
      assert Indented(lines, last)[i] == (if i == 0 then Head(last) else Rest(last)) + lines[i];
    }
  }

  lemma {:induction false} HoldersDrawn(hs: seq<Tree>, i: nat)
    requires i <= |hs|
    ensures WellDrawn(LinesFrom(hs, i))
    decreases hs, |hs| - i
  {
    if i < |hs| {
      var block, rest, all := Indented(Lines(hs[i]), i + 1 == |hs|), LinesFrom(hs, i + 1), LinesFrom(hs, i);
      FirstBlock(hs, i);
      BlockLines(hs[i], i + 1 == |hs|);
      assert all[..|block|] == block && all[|block|..] == rest;
      assert rest == [] <==> i + 1 == |hs| by {
        if i + 1 < |hs| {
          BlockLines(hs[i + 1], i + 2 == |hs|);
        }
      }
      BlockDrawn(hs[i], i + 1 == |hs|);
      LinesDrawn(hs[i]);
      HoldersDrawn(hs, i + 1);
    }
  }

  /** The last holder of every device, and no other, has a corner. */
  lemma {:induction false} LinesDrawn(t: Tree)
    ensures TreeDrawn(Lines(t))
    decreases t, 0
  {
    LinesFromFront(t.holders, 0);
    assert Lines(t)[1..] == LinesFrom(t.holders, 0);
    HoldersDrawn(t.holders, 0);
  }

  lemma {:induction false} LinesNewlineFree(t: Tree)
    requires NewlineFree(t)
    ensures forall l :: l in Lines(t) ==> '\n' !in l
    decreases t, 0
  {
    HolderLinesNewlineFree(t.holders, |t.holders|);
  }

  lemma {:induction false} HolderLinesNewlineFree(hs: seq<Tree>, n: nat)
    requires n <= |hs| && forall i :: 0 <= i < |hs| ==> NewlineFree(hs[i])
    ensures forall l :: l in HolderLines(hs, n) ==> '\n' !in l
    decreases hs, n
  {
    if n > 0 {
      HolderLinesNewlineFree(hs, n - 1);
      LinesNewlineFree(hs[n - 1]);
      var sub := Lines(hs[n - 1]);
      forall l | l in Indented(sub, n == |hs|) ensures '\n' !in l {
        var k :| 0 <= k < |sub| && l == Indented(sub, n == |hs|)[k];
        assert sub[k] in sub;
        IndentedLine(sub, n == |hs|, k);
      }
    }
  }

  /** The diagram determines the tree it shows, and every connector is the right one. */
  lemma DiagramRoundTrip(t: Tree)
    requires NewlineFree(t)
    ensures ReadDiagram(Diagram(t)) == ShapeOf(t) && TreeDrawn(Split('\n', Diagram(t)))
  {
    LinesNewlineFree(t);
    SplitJoin('\n', Lines(t));
    ReadsTree(t);
    LinesDrawn(t);
  }

  lemma DiagramInjective(t: Tree, u: Tree)
    requires NewlineFree(t) && NewlineFree(u) && Diagram(t) == Diagram(u)
    ensures ShapeOf(t) == ShapeOf(u)
  {
    DiagramRoundTrip(t);
    DiagramRoundTrip(u);
  }
}
