/** Line by line, what the one-line generator makes of a list of sources when components are disabled. */
module AptInPlace {
  import opened AptConvert
  import opened AptGenerators

  /** An active line that asks for a disabled component other than main. */
  ghost predicate Loses(e: SourceEntry, off: set<string>) {
    !e.disabled && exists c :: c in e.comps && c in off && c != "main"
  }

  /** One of its components stays. */
  ghost predicate Keeps(e: SourceEntry, off: set<string>) {
    exists c :: c in e.comps && (c !in off || c == "main")
  }

  /** How many lines the line becomes. */
  ghost function Width(e: SourceEntry, off: set<string>): nat {
    if Loses(e, off) && Keeps(e, off) then 2 else 1
  }

  /** What remains of the components: each that is main or not disabled, in order. */
  lemma KeptCons(c: string, rest: seq<string>, cfg: Cfg)
    ensures Kept([], cfg) == []
    ensures Kept([c] + rest, cfg) == (if c == "main" || c !in cfg.compsOff then [c] else []) + Kept(rest, cfg)
  {
    assert ([c] + rest)[1..] == rest;
  }

  /** At `p` stands the line, commented out if it loses a component and then followed by a line that has the rest. */
  ghost predicate InPlace(e: SourceEntry, cfg: Cfg, out: seq<SourceEntry>, p: nat) {
    var loses, keeps := Loses(e, cfg.compsOff), Keeps(e, cfg.compsOff);
    && p + Width(e, cfg.compsOff) <= |out|
    && out[p] == (if loses then e.(disabled := true) else e)
    && (loses && keeps ==> out[p + 1] == e.(comps := Kept(e.comps, cfg)))
  }

  lemma DisabledLineIs(e: SourceEntry, cfg: Cfg)
    ensures InPlace(e, cfg, DisabledLine(e, cfg), 0) && |DisabledLine(e, cfg)| == Width(e, cfg.compsOff)
  {
    var kept := Kept(e.comps, cfg);
    if kept != [] {
      assert kept[0] in kept;
    }
    if c :| c in e.comps && (c !in cfg.compsOff || c == "main") {
      assert c in kept;
    }
  }

  lemma StillInPlace(e: SourceEntry, cfg: Cfg, before: seq<SourceEntry>, out: seq<SourceEntry>,
                     after: seq<SourceEntry>, p: nat)
    requires InPlace(e, cfg, out, p)
    ensures InPlace(e, cfg, before + out + after, |before| + p)
  {
    var all := before + out + after;
    assert all[|before| + p] == out[p];
    if Width(e, cfg.compsOff) == 2 {
      assert all[|before| + p + 1] == out[p + 1];
    }
  }

  ghost predicate PlacedAt(e: SourceEntry, cfg: Cfg, out: seq<SourceEntry>, at: seq<nat>, i: nat)
    requires i + 1 < |at|
  {
    at[i + 1] == at[i] + Width(e, cfg.compsOff) && InPlace(e, cfg, out, at[i])
  }

  /** `at` are the places of the lines in the output: the first at its front, each next one right behind what the
      one before it became, and nothing behind the last. */
  ghost predicate Placed(es: seq<SourceEntry>, cfg: Cfg, out: seq<SourceEntry>, at: seq<nat>) {
    && |at| == |es| + 1 && at[0] == 0 && at[|es|] == |out|
    && (forall i :: 0 <= i < |es| ==> PlacedAt(es[i], cfg, out, at, i))
  }

  lemma OneMorePlaced(es: seq<SourceEntry>, e: SourceEntry, cfg: Cfg, out: seq<SourceEntry>, at: seq<nat>)
    requires Placed(es, cfg, out, at)
    ensures Placed(es + [e], cfg, out + DisabledLine(e, cfg), at + [|out| + |DisabledLine(e, cfg)|])
  {
    var line, n := DisabledLine(e, cfg), |es|;
    var all, more := out + line, at + [|out| + |line|];
    DisabledLineIs(e, cfg);
    StillInPlace(e, cfg, out, line, [], 0);
    assert out + line + [] == all;
    forall i | 0 <= i < n ensures PlacedAt((es + [e])[i], cfg, all, more, i) {
      assert PlacedAt(es[i], cfg, out, at, i);
      StillInPlace(es[i], cfg, [], out, line, at[i]);
      assert [] + out + line == all;
    }
    assert PlacedAt((es + [e])[n], cfg, all, more, n);
  }

  /** Every line is still in its place, commented out where it loses a component and then followed by what is left. */
  lemma {:induction false} DisabledInPlace(es: seq<SourceEntry>, cfg: Cfg) returns (at: seq<nat>)
    ensures Placed(es, cfg, DisabledLines(es, cfg), at)
  {
    at := [0];
    if es != [] {
      var n := |es| - 1;
      var first := DisabledInPlace(es[..n], cfg);
      OneMorePlaced(es[..n], es[n], cfg, DisabledLines(es[..n], cfg), first);
      assert es == es[..n] + [es[n]];
      at := first + [|DisabledLines(es[..n], cfg)| + |DisabledLine(es[n], cfg)|];
    }
  }
}
