/** Joining strings around a separator character and splitting them again. */
module Text {

  function Join(sep: char, parts: seq<string>): string {
    if parts == [] then ""
    else if |parts| == 1 then parts[0]
    else parts[0] + [sep] + Join(sep, parts[1..])
  }

  /** The first position of `c` in `s`, or the length of `s`. */
  function Find(s: string, c: char): (n: nat)
    ensures n <= |s| && c !in s[..n] && (n < |s| ==> s[n] == c)
  {
    if s == "" || s[0] == c then 0
    else
      var n := Find(s[1..], c) + 1;
      assert s[..n] == [s[0]] + s[1..][..n - 1];
      n
  }

  /** Like `s.split(sep)`: one part more than there are separators. */
  function Split(sep: char, s: string): (parts: seq<string>)
    ensures |parts| > 0 && forall p :: p in parts ==> sep !in p
    decreases |s|
  {
    var n := Find(s, sep);
    if n == |s| then assert s == s[..n]; [s] else [s[..n]] + Split(sep, s[n + 1..])
  }

  lemma {:induction false} FindAppend(a: string, c: char, b: string)
    requires c !in a
    ensures Find(a + [c] + b, c) == |a|
  {
    if a != "" {
      FindAppend(a[1..], c, b);
      assert (a + [c] + b)[1..] == a[1..] + [c] + b;
    }
  }

  lemma {:induction false} FindSome(s: string, c: char)
    requires c in s
    ensures Find(s, c) < |s|
  {
    if s[0] != c {
      FindSome(s[1..], c);
    }
  }

  lemma FindNone(a: string, c: char)
    requires c !in a
    ensures Find(a, c) == |a|
  {
  }

  lemma SplitOne(sep: char, p: string, rest: string)
    requires sep !in p
    ensures Split(sep, p + [sep] + rest) == [p] + Split(sep, rest)
  {
    FindAppend(p, sep, rest);
    var s := p + [sep] + rest;
    assert s[..|p|] == p && s[|p| + 1..] == rest;
  }

  lemma {:induction false} SplitJoin(sep: char, parts: seq<string>)
    requires |parts| > 0 && forall p :: p in parts ==> sep !in p
    ensures Split(sep, Join(sep, parts)) == parts
  {
    if |parts| == 1 {
      FindNone(parts[0], sep);
    } else {
      SplitJoin(sep, parts[1..]);
      SplitOne(sep, parts[0], Join(sep, parts[1..]));
      assert parts == [parts[0]] + parts[1..];
    }
  }

  lemma JoinFront(sep: char, head: string, rest: seq<string>)
    requires rest != []
    ensures Join(sep, [head] + rest) == head + [sep] + Join(sep, rest)
  {
    assert ([head] + rest)[1..] == rest;
  }

  lemma AroundFound(s: string, c: char)
    requires Find(s, c) < |s|
    ensures s == s[..Find(s, c)] + [c] + s[Find(s, c) + 1..]
  {
  }

  lemma SplitFront(sep: char, s: string)
    requires Find(s, sep) < |s|
    ensures Join(sep, Split(sep, s)) == s[..Find(s, sep)] + [sep] + Join(sep, Split(sep, s[Find(s, sep) + 1..]))
  {
    JoinFront(sep, s[..Find(s, sep)], Split(sep, s[Find(s, sep) + 1..]));
  }

  lemma {:induction false} JoinSplit(sep: char, s: string)
    ensures Join(sep, Split(sep, s)) == s
    decreases |s|
  {
    if Find(s, sep) < |s| {
      SplitFront(sep, s);
      JoinSplit(sep, s[Find(s, sep) + 1..]);
      AroundFound(s, sep);
    }
  }
}
