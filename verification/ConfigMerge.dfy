/** Merging nested configuration dictionaries, and settings given on the command line. */
module ConfigMerge {
  import opened Wrappers
  import opened Text

  /** A configuration value: a dictionary, or anything else. */
  datatype Value = Leaf(text: string) | Dict(entries: map<string, Value>)

  type Cfg = map<string, Value>

  /** `b` merged over `a`: dictionaries met by dictionaries are merged, anything else is replaced. */
  function Merged(a: Cfg, b: Cfg): Cfg
    decreases Dict(b), 1
  {
    map k | k in a.Keys + b.Keys ::
      if k in b then MergedAt(a, b, k) else a[k]
  }

  /** What the merged dictionary holds at a key of `b`. */
  function MergedAt(a: Cfg, b: Cfg, k: string): Value
    requires k in b
    decreases Dict(b), 0
  {
    if k in a && a[k].Dict? && b[k].Dict? then Dict(Merged(a[k].entries, b[k].entries)) else b[k]
  }

  /** `r` is `a` with every key of `b` but those in `left` merged in. */
  ghost predicate MergedBut(a: Cfg, b: Cfg, left: set<string>, r: Cfg) {
    && left <= b.Keys && r.Keys == a.Keys + (b.Keys - left)
    && forall k :: k in r ==> r[k] == if k in b && k !in left then MergedAt(a, b, k) else a[k]
  }

  lemma MergedAll(a: Cfg, b: Cfg, r: Cfg)
    requires MergedBut(a, b, {}, r)
    ensures r == Merged(a, b)
  {
  }

  lemma MergedOneMore(a: Cfg, b: Cfg, left: set<string>, r: Cfg, k: string)
    requires MergedBut(a, b, left, r) && k in left
    ensures MergedBut(a, b, left - {k}, r[k := MergedAt(a, b, k)])
    ensures k in r <==> k in a
    ensures k in a ==> r[k] == a[k]
  {
  }

  /** The dictionary is updated in place, one key of `cfg2` at a time. */
  method MergeConfig(cfg: Cfg, cfg2: Cfg) returns (r: Cfg)
    ensures r == Merged(cfg, cfg2)
    decreases Dict(cfg2)
  {
    r := cfg;
    var left := cfg2.Keys;
    while left != {}
      invariant MergedBut(cfg, cfg2, left, r)
      decreases |left|
    {
      var k :| k in left;
      var v := cfg2[k];
      MergedOneMore(cfg, cfg2, left, r, k);
      if v.Dict? && k in r && r[k].Dict? {
        var inner := MergeConfig(r[k].entries, v.entries);
        r := r[k := Dict(inner)];
      } else {
        r := r[k := v];
      }
      left := left - {k};
    }
    MergedAll(cfg, cfg2, r);
  }

  // ----- Paths -----

  /** What a path of keys leads to. */
  function Lookup(c: Cfg, path: seq<string>): Option<Value>
    decreases |path|
  {
    if path == [] then Some(Dict(c))
    else if path[0] !in c then None
    else if |path| == 1 then Some(c[path[0]])
    else if c[path[0]].Dict? then Lookup(c[path[0]].entries, path[1..])
    else None
  }

  /** `b` says nothing about `path`: walking it, `b` runs out of keys before meeting anything but a dictionary. */
  predicate Silent(b: Cfg, path: seq<string>)
    decreases |path|
  {
    path != [] && (path[0] !in b || (b[path[0]].Dict? && |path| > 1 && Silent(b[path[0]].entries, path[1..])))
  }

  /** Every leaf of the second configuration is found in the result. */
  lemma {:induction false} LeavesOfSecond(a: Cfg, b: Cfg, path: seq<string>)
    requires Lookup(b, path).Some? && Lookup(b, path).value.Leaf?
    ensures Lookup(Merged(a, b), path) == Lookup(b, path)
    decreases |path|
  {
    var k := path[0];
    assert Merged(a, b)[k] == MergedAt(a, b, k);
    if |path| > 1 && k in a && a[k].Dict? {
      LeavesOfSecond(a[k].entries, b[k].entries, path[1..]);
    }
  }

  lemma {:induction false} SilentFindsNothing(b: Cfg, path: seq<string>)
    requires Silent(b, path)
    ensures Lookup(b, path) == None
    decreases |path|
  {
    if path[0] in b {
      SilentFindsNothing(b[path[0]].entries, path[1..]);
    }
  }

  /** Where the second configuration is silent, what the first one says stays. */
  lemma {:induction false} SilentKeepsFirst(a: Cfg, b: Cfg, path: seq<string>)
    requires Silent(b, path)
    ensures Lookup(Merged(a, b), path) == Lookup(a, path)
    decreases |path|
  {
    var k := path[0];
    if k in b {
      assert Merged(a, b)[k] == MergedAt(a, b, k);
      if k in a && a[k].Dict? {
        SilentKeepsFirst(a[k].entries, b[k].entries, path[1..]);
      } else {
        SilentFindsNothing(b[k].entries, path[1..]);
      }
    }
  }

  // ----- Merging twice, and in which order -----

  lemma {:induction false} MergedWithItself(b: Cfg)
    ensures Merged(b, b) == b
    decreases Dict(b)
  {
    forall k | k in b ensures MergedAt(b, b, k) == b[k] {
      if b[k].Dict? {
        MergedWithItself(b[k].entries);
      }
    }
  }

  /** Merging the same configuration a second time changes nothing. */
  lemma {:induction false} MergeIdempotent(a: Cfg, b: Cfg)
    ensures Merged(Merged(a, b), b) == Merged(a, b)
    decreases Dict(b)
  {
    var m := Merged(a, b);
    forall k | k in b ensures MergedAt(m, b, k) == m[k] {
      assert m[k] == MergedAt(a, b, k);
      if b[k].Dict? {
        if k in a && a[k].Dict? {
          MergeIdempotent(a[k].entries, b[k].entries);
        } else {
          MergedWithItself(b[k].entries);
        }
      }
    }
    assert Merged(m, b).Keys == m.Keys;
  }

  /** `a` adds nothing to `c`: every key of `a` is in `c`, and so on within the dictionaries they share. */
  predicate AddsNothing(a: Cfg, c: Cfg)
    decreases Dict(c)
  {
    forall k :: k in a ==> k in c && (a[k].Dict? && c[k].Dict? ==> AddsNothing(a[k].entries, c[k].entries))
  }

  lemma {:induction false} AddsNothingExactly(a: Cfg, c: Cfg)
    ensures AddsNothing(a, c) <==> Merged(a, c) == c
    decreases Dict(c)
  {
    var m := Merged(a, c);
    forall k | k in a && k in c && a[k].Dict? && c[k].Dict?
      ensures AddsNothing(a[k].entries, c[k].entries) <==> Merged(a[k].entries, c[k].entries) == c[k].entries
    {
      AddsNothingExactly(a[k].entries, c[k].entries);
    }
    forall k | k in c ensures m[k] == MergedAt(a, c, k) {
    }
    if m == c {
      forall k | k in a ensures k in c && (a[k].Dict? && c[k].Dict? ==> AddsNothing(a[k].entries, c[k].entries)) {
        assert k in m;
      }
    }
  }

  /** Grouping does not matter at `k`: it does where `b` puts a leaf between two dictionaries,
      unless the first of them adds nothing to the last. */
  ghost predicate GroupableAt(a: Cfg, b: Cfg, c: Cfg, k: string)
    decreases Dict(c), 0
  {
    k in a && k in b && k in c && a[k].Dict? && c[k].Dict? ==>
      if b[k].Dict? then Groupable(a[k].entries, b[k].entries, c[k].entries)
      else AddsNothing(a[k].entries, c[k].entries)
  }

  ghost predicate Groupable(a: Cfg, b: Cfg, c: Cfg)
    decreases Dict(c), 1
  {
    forall k :: k in a && k in b && k in c ==> GroupableAt(a, b, c, k)
  }

  lemma AssociatesAt(a: Cfg, b: Cfg, c: Cfg, k: string)
    requires k in a || k in b || k in c
    requires k in c && k in b && k in a && a[k].Dict? && b[k].Dict? && c[k].Dict? ==>
      (Groupable(a[k].entries, b[k].entries, c[k].entries) <==>
       Merged(a[k].entries, Merged(b[k].entries, c[k].entries))
         == Merged(Merged(a[k].entries, b[k].entries), c[k].entries))
    ensures Merged(a, Merged(b, c))[k] == Merged(Merged(a, b), c)[k] <==> GroupableAt(a, b, c, k)
  {
    if k in a && k in c && a[k].Dict? && c[k].Dict? {
      AddsNothingExactly(a[k].entries, c[k].entries);
    }
    var bc, ab := Merged(b, c), Merged(a, b);
    assert k in bc <==> k in b || k in c;
    assert k in ab <==> k in a || k in b;
    assert k in bc ==> Merged(a, bc)[k] == MergedAt(a, bc, k);
    assert k in c ==> Merged(ab, c)[k] == MergedAt(ab, c, k) && bc[k] == MergedAt(b, c, k);
    assert k in b ==> ab[k] == MergedAt(a, b, k);
  }

  /** Exactly when three configurations may be merged in either grouping. */
  lemma {:induction false} MergeAssociates(a: Cfg, b: Cfg, c: Cfg)
    ensures Merged(a, Merged(b, c)) == Merged(Merged(a, b), c) <==> Groupable(a, b, c)
    decreases Dict(c)
  {
    var bc, ab := Merged(b, c), Merged(a, b);
    var left, right := Merged(a, bc), Merged(ab, c);
    assert left.Keys == right.Keys;
    forall k | k in left ensures left[k] == right[k] <==> GroupableAt(a, b, c, k) {
      if k in c && k in b && k in a && a[k].Dict? && b[k].Dict? && c[k].Dict? {
        MergeAssociates(a[k].entries, b[k].entries, c[k].entries);
      }
      AssociatesAt(a, b, c, k);
    }
    if left == right {
      forall k | k in a && k in b && k in c ensures GroupableAt(a, b, c, k) {
        assert left[k] == right[k];
      }
    } else {
      var k :| k in left && left[k] != right[k];
      assert !GroupableAt(a, b, c, k);
    }
  }

  /** Such a case: `{k: {x: 1}}`, `{k: 2}` and `{k: {}}`. */
  lemma MergeNotAssociative()
    ensures var a, b, c := map["k" := Dict(map["x" := Leaf("1")])], map["k" := Leaf("2")], map["k" := Dict(map[])];
      Merged(a, Merged(b, c)) != Merged(Merged(a, b), c)
  {
    var a, b, c: Cfg := map["k" := Dict(map["x" := Leaf("1")])], map["k" := Leaf("2")], map["k" := Dict(map[])];
    assert "x" in a["k"].entries && "x" !in c["k"].entries;
    assert !AddsNothing(a["k"].entries, c["k"].entries);
    assert !GroupableAt(a, b, c, "k");
    MergeAssociates(a, b, c);
  }

  // ----- A setting on the command line -----

  datatype Error = NoEquals | BadJson(key: string) | NotADictionary

  /** The dictionaries along `items`, with `v` at their end. */
  function Nest(items: seq<string>, v: Value): Cfg
    requires items != []
  {
    map[items[0] := if |items| == 1 then v else Dict(Nest(items[1..], v))]
  }

  /** `json` stands for the JSON reader. A key that ends in the delimiter stands for the whole configuration. */
  function ParseSetting(arg: string, delim: char, json: string -> Option<Value>): Result<Value, Error> {
    var n := Find(arg, '=');
    if n == |arg| then Err(NoEquals)
    else
      var isJson := n >= 5 && arg[..5] == "json:";
      var key, text := if isJson then arg[5..n] else arg[..n], arg[n + 1..];
      var items := Split(delim, key);
      if isJson && json(text).None? then Err(BadJson(key))
      else
        var v := if isJson then json(text).value else Leaf(text);
        Ok(if items[|items| - 1] == "" then v else Dict(Nest(items, v)))
  }

  predicate StartsWith(p: string, s: string) { |p| <= |s| && s[..|p|] == p }

  /** An argument taken apart: `json:` in front or not, the names of the path, the text behind the equals sign. */
  datatype Setting = Setting(isJson: bool, items: seq<string>, text: string) {
    function Key(delim: char): string { Join(delim, items) }

    function Spelling(delim: char): string { (if isJson then "json:" else "") + Key(delim) + "=" + text }

    /** The spelling can be read one way only. */
    predicate Clear(delim: char) {
      && items != [] && (forall i :: i in items ==> delim !in i) && '=' !in Key(delim)
      && (!isJson ==> !StartsWith("json:", Spelling(delim)))
    }

    function ValueGiven(json: string -> Option<Value>): Option<Value> {
      if isJson then json(text) else Some(Leaf(text))
    }

    /** A last name that is empty stands for the whole configuration. */
    predicate Whole()
      requires items != []
    {
      items[|items| - 1] == ""
    }
  }

  /** The first equals sign parts the key from the text. */
  lemma Parted(head: string, text: string)
    requires '=' !in head
    ensures var arg := head + "=" + text;
      Find(arg, '=') == |head| && |head| < |arg| && arg[..|head|] == head && arg[|head| + 1..] == text
  {
    FindAppend(head, '=', text);
  }

  lemma PlainParses(s: Setting, delim: char, json: string -> Option<Value>)
    requires s.Clear(delim) && !s.isJson
    ensures ParseSetting(s.Spelling(delim), delim, json) ==
      Ok(if s.Whole() then Leaf(s.text) else Dict(Nest(s.items, Leaf(s.text))))
  {
    assert s.Spelling(delim) == s.Key(delim) + "=" + s.text;
    Parted(s.Key(delim), s.text);
    SplitJoin(delim, s.items);
  }

  lemma JsonParses(s: Setting, delim: char, json: string -> Option<Value>)
    requires s.Clear(delim) && s.isJson
    ensures ParseSetting(s.Spelling(delim), delim, json) ==
      if json(s.text).None? then Err(BadJson(s.Key(delim)))
      else Ok(if s.Whole() then json(s.text).value else Dict(Nest(s.items, json(s.text).value)))
  {
    var head := "json:" + s.Key(delim);
    assert s.Spelling(delim) == head + "=" + s.text;
    Parted(head, s.text);
    assert head[..5] == "json:" && head[5..] == s.Key(delim);
    assert s.Spelling(delim)[..5] == head[..5] && s.Spelling(delim)[5..|head|] == head[5..];
    SplitJoin(delim, s.items);
  }

  /** What a clearly spelled setting parses to. */
  lemma SettingParses(s: Setting, delim: char, json: string -> Option<Value>)
    requires s.Clear(delim)
    ensures ParseSetting(s.Spelling(delim), delim, json) ==
      match s.ValueGiven(json)
      case None => Err(BadJson(s.Key(delim)))
      case Some(v) => Ok(if s.Whole() then v else Dict(Nest(s.items, v)))
  {
    if s.isJson {
      JsonParses(s, delim, json);
    } else {
      PlainParses(s, delim, json);
    }
  }

  lemma JsonHead(arg: string, n: nat)
    requires n < |arg| && arg[n] == '=' && StartsWith("json:", arg)
    ensures n >= 5 && arg[..n] == "json:" + arg[..n][5..] && forall c :: c in arg[..n][5..] ==> c in arg[..n]
  {
    assert n >= 5 by {
      assert forall i :: 0 <= i < 5 ==> arg[i] == "json:"[i] != '=';
    }
    assert arg[..n][..5] == arg[..5];
  }

  /** Every argument with an equals sign is the clear spelling of some setting. */
  lemma EverySettingSpelled(arg: string, delim: char) returns (s: Setting)
    requires '=' in arg
    ensures s.Clear(delim) && s.Spelling(delim) == arg
  {
    var n := Find(arg, '=');
    FindSome(arg, '=');
    var head, text := arg[..n], arg[n + 1..];
    assert arg == head + "=" + text;
    if StartsWith("json:", arg) {
      JsonHead(arg, n);
      JoinSplit(delim, head[5..]);
      s := Setting(true, Split(delim, head[5..]), text);
      assert s.Spelling(delim) == ("json:" + head[5..]) + "=" + text;
    } else {
      JoinSplit(delim, head);
      s := Setting(false, Split(delim, head), text);
      assert s.Spelling(delim) == head + "=" + text;
    }
  }

  /** What stands at the named path afterwards: dictionaries are merged, anything else is replaced. */
  function Placed(was: Option<Value>, v: Value): Value {
    if v.Dict? && was.Some? && was.value.Dict? then Dict(Merged(was.value.entries, v.entries)) else v
  }

  predicate IsPrefix(p: seq<string>, q: seq<string>) { |p| <= |q| && q[..|p|] == p }

  function Inside(v: Value, rest: seq<string>): Option<Value> {
    if v.Dict? then Lookup(v.entries, rest) else None
  }

  /** `after` is `before` with `v` set at the path `items`: the path has its value, what lies below it is found
      in that value, a dictionary is on the way to it, and every other path leads where it did. */
  ghost predicate SetsOnly(before: Cfg, after: Cfg, items: seq<string>, v: Value) {
    && Lookup(after, items) == Some(Placed(Lookup(before, items), v))
    && (forall rest: seq<string> :: rest != [] ==>
          Lookup(after, items + rest) == Inside(Placed(Lookup(before, items), v), rest))
    && (forall n :: 0 < n < |items| ==> Lookup(after, items[..n]).Some? && Lookup(after, items[..n]).value.Dict?)
    && (forall path :: path != [] && !IsPrefix(path, items) && !IsPrefix(items, path) ==>
          Lookup(after, path) == Lookup(before, path))
  }

  lemma {:induction false} LookupBelow(c: Cfg, items: seq<string>, rest: seq<string>)
    requires items != [] && rest != []
    ensures Lookup(c, items + rest) == match Lookup(c, items) case None => None case Some(v) => Inside(v, rest)
    decreases |items|
  {
    assert (items + rest)[1..] == items[1..] + rest;
    if |items| == 1 {
      assert (items + rest)[1..] == rest;
    } else if items[0] in c && c[items[0]].Dict? {
      LookupBelow(c[items[0]].entries, items[1..], rest);
    }
  }

  lemma {:induction false} OnTheWay(c: Cfg, items: seq<string>, n: nat)
    requires 0 < n < |items| && Lookup(c, items).Some?
    ensures Lookup(c, items[..n]).Some? && Lookup(c, items[..n]).value.Dict?
    decreases n
  {
    assert items[..n][1..] == items[1..][..n - 1];
    if n > 1 {
      OnTheWay(c[items[0]].entries, items[1..], n - 1);
    }
  }

  lemma {:induction false} NestFound(items: seq<string>, v: Value)
    requires items != []
    ensures Lookup(Nest(items, v), items) == Some(v)
  {
    if |items| > 1 {
      NestFound(items[1..], v);
    }
  }

  lemma {:induction false} NestPlaced(cfg: Cfg, items: seq<string>, v: Value)
    requires items != []
    ensures Lookup(Merged(cfg, Nest(items, v)), items) == Some(Placed(Lookup(cfg, items), v))
    decreases |items|
  {
    var k, nest := items[0], Nest(items, v);
    assert Merged(cfg, nest)[k] == MergedAt(cfg, nest, k);
    if |items| > 1 {
      if k in cfg && cfg[k].Dict? {
        NestPlaced(cfg[k].entries, items[1..], v);
      } else {
        NestFound(items[1..], v);
      }
    }
  }

  lemma {:induction false} NestSilent(items: seq<string>, v: Value, path: seq<string>)
    requires items != [] && path != [] && !IsPrefix(path, items) && !IsPrefix(items, path)
    ensures Silent(Nest(items, v), path)
    decreases |items|
  {
    if path[0] == items[0] {
      var ps, qs := path[1..], items[1..];
      assert path == [path[0]] + ps && items == [items[0]] + qs;
      assert IsPrefix(ps, qs) ==> IsPrefix(path, items);
      assert IsPrefix(qs, ps) ==> IsPrefix(items, path);
      NestSilent(qs, v, ps);
    }
  }

  /** Merging the nest of a path sets that path and nothing else, whatever the value. */
  lemma SettingChangesItsPath(cfg: Cfg, items: seq<string>, v: Value)
    requires items != []
    ensures SetsOnly(cfg, Merged(cfg, Nest(items, v)), items, v)
  {
    var after := Merged(cfg, Nest(items, v));
    NestPlaced(cfg, items, v);
    forall rest: seq<string> | rest != []
      ensures Lookup(after, items + rest) == Inside(Placed(Lookup(cfg, items), v), rest)
    {
      LookupBelow(after, items, rest);
    }
    forall n | 0 < n < |items| ensures Lookup(after, items[..n]).Some? && Lookup(after, items[..n]).value.Dict? {
      OnTheWay(after, items, n);
    }
    forall path | path != [] && !IsPrefix(path, items) && !IsPrefix(items, path)
      ensures Lookup(after, path) == Lookup(cfg, path)
    {
      NestSilent(items, v, path);
      SilentKeepsFirst(cfg, Nest(items, v), path);
    }
  }

  /** What a setting does to a configuration. */
  ghost predicate Done(cfg: Cfg, s: Setting, delim: char, json: string -> Option<Value>, r: Result<Cfg, Error>)
    requires s.items != []
  {
    match s.ValueGiven(json)
    case None => r == Err(BadJson(s.Key(delim)))
    case Some(v) =>
      if !s.Whole() then r.Ok? && SetsOnly(cfg, r.value, s.items, v)
      else if v.Leaf? then r == Err(NotADictionary)
      else r == Ok(Merged(cfg, v.entries))
  }

  method MergeSetting(cfg: Cfg, arg: string, delim: char, json: string -> Option<Value>) returns (r: Result<Cfg, Error>)
    ensures '=' !in arg <==> r == Err(NoEquals)
    ensures forall s: Setting :: s.Clear(delim) && s.Spelling(delim) == arg ==> Done(cfg, s, delim, json, r)
  {
    var v := ParseSetting(arg, delim, json);
    if v.Err? {
      r := Err(v.error);
    } else if v.value.Leaf? {
      r := Err(NotADictionary);
    } else {
      var merged := MergeConfig(cfg, v.value.entries);
      r := Ok(merged);
    }
    if '=' !in arg {
      FindNone(arg, '=');
    }
    forall s: Setting | s.Clear(delim) && s.Spelling(delim) == arg ensures Done(cfg, s, delim, json, r) {
      SettingParses(s, delim, json);
      if s.ValueGiven(json).Some? && !s.Whole() {
        SettingChangesItsPath(cfg, s.items, s.ValueGiven(json).value);
      }
    }
  }
}
