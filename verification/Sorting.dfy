/** Stable sorting by an order relation, as `sorted(xs, key=...)` does it, and the
    code-point order on strings that it falls back to for string keys. */
module Sorting {
  ghost predicate TotalPreorder<T(!new)>(le: (T, T) -> bool) {
    && (forall a, b :: le(a, b) || le(b, a))
    && (forall a, b, c :: le(a, b) && le(b, c) ==> le(a, c))
  }

  ghost predicate Ordered<T>(xs: seq<T>, le: (T, T) -> bool) {
    forall i, j :: 0 <= i < j < |xs| ==> le(xs[i], xs[j])
  }

  ghost predicate NoDup<T>(xs: seq<T>) {
    forall i, j :: 0 <= i < j < |xs| ==> xs[i] != xs[j]
  }

  function Insert<T>(x: T, xs: seq<T>, le: (T, T) -> bool): seq<T> {
    if xs == [] || le(x, xs[0]) then [x] + xs else [xs[0]] + Insert(x, xs[1..], le)
  }

  function Sort<T>(xs: seq<T>, le: (T, T) -> bool): seq<T> {
    if xs == [] then [] else Insert(xs[0], Sort(xs[1..], le), le)
  }

  lemma {:induction false} InsertPermutes<T>(x: T, xs: seq<T>, le: (T, T) -> bool)
    ensures multiset(Insert(x, xs, le)) == multiset([x] + xs)
  {
    if xs != [] && !le(x, xs[0]) {
      InsertPermutes(x, xs[1..], le);
      assert [x] + xs == [x] + ([xs[0]] + xs[1..]);
      assert multiset([x] + xs[1..]) == multiset{x} + multiset(xs[1..]);
    }
  }

  lemma {:induction false} SortPermutes<T>(xs: seq<T>, le: (T, T) -> bool)
    ensures multiset(Sort(xs, le)) == multiset(xs)
  {
    if xs != [] {
      SortPermutes(xs[1..], le);
      InsertPermutes(xs[0], Sort(xs[1..], le), le);
      assert xs == [xs[0]] + xs[1..];
    }
  }

  lemma {:induction false} InsertOrdered<T(!new)>(x: T, xs: seq<T>, le: (T, T) -> bool)
    requires TotalPreorder(le) && Ordered(xs, le)
    ensures Ordered(Insert(x, xs, le), le)
  {
    if xs == [] {
    } else if le(x, xs[0]) {
      forall j | 0 <= j < |xs| ensures le(x, xs[j]) {
        assert le(xs[0], xs[j]);
      }
    } else {
      var rest := Insert(x, xs[1..], le);
      InsertOrdered(x, xs[1..], le);
      InsertPermutes(x, xs[1..], le);
      forall j | 0 <= j < |rest| ensures le(xs[0], rest[j]) {
        assert rest[j] in multiset(rest);
        assert rest[j] == x || rest[j] in xs[1..];
      }
    }
  }

  lemma {:induction false} SortOrdered<T(!new)>(xs: seq<T>, le: (T, T) -> bool)
    requires TotalPreorder(le)
    ensures Ordered(Sort(xs, le), le)
  {
    if xs != [] {
      SortOrdered(xs[1..], le);
      InsertOrdered(xs[0], Sort(xs[1..], le), le);
    }
  }

  /** `le` with ties broken by `pos`. */
  function Tied<T>(le: (T, T) -> bool, pos: T -> nat): (T, T) -> bool {
    (a, b) => le(a, b) && (le(b, a) ==> pos(a) <= pos(b))
  }

  ghost predicate Rising<T>(xs: seq<T>, pos: T -> nat) {
    forall i, j :: 0 <= i < j < |xs| ==> pos(xs[i]) <= pos(xs[j])
  }

  lemma {:induction false} InsertTied<T>(x: T, xs: seq<T>, le: (T, T) -> bool, pos: T -> nat)
    requires forall y :: y in xs ==> pos(x) <= pos(y)
    ensures Insert(x, xs, le) == Insert(x, xs, Tied(le, pos))
  {
    if xs != [] && !le(x, xs[0]) {
      InsertTied(x, xs[1..], le, pos);
    }
  }

  /** Sorting what stands in the order of `pos` breaks ties by `pos`. */
  lemma {:induction false} SortTied<T>(xs: seq<T>, le: (T, T) -> bool, pos: T -> nat)
    requires Rising(xs, pos)
    ensures Sort(xs, le) == Sort(xs, Tied(le, pos))
  {
    if xs != [] {
      var rest := Sort(xs[1..], le);
      SortTied(xs[1..], le, pos);
      SortPermutes(xs[1..], le);
      forall y | y in rest ensures pos(xs[0]) <= pos(y) {
        assert y in multiset(rest);
        var j :| 0 <= j < |xs[1..]| && xs[1..][j] == y;
        assert xs[j + 1] == y;
      }
      InsertTied(xs[0], rest, le, pos);
    }
  }

  /** Sorting is stable. */
  lemma SortStable<T(!new)>(xs: seq<T>, le: (T, T) -> bool, pos: T -> nat)
    requires TotalPreorder(le) && Rising(xs, pos)
    ensures Ordered(Sort(xs, le), Tied(le, pos))
  {
    var tied := Tied(le, pos);
    forall a, b, c ensures (tied(a, b) || tied(b, a)) && (tied(a, b) && tied(b, c) ==> tied(a, c)) {
      assert le(a, b) || le(b, a);
      assert le(b, c) && le(c, a) ==> le(b, a);
      assert le(c, a) && le(a, b) ==> le(c, b);
    }
    SortTied(xs, le, pos);
    SortOrdered(xs, tied);
  }

  lemma PermutationFacts<T>(xs: seq<T>, ys: seq<T>)
    requires multiset(xs) == multiset(ys)
    ensures |xs| == |ys|
    ensures forall x :: x in xs <==> x in ys
  {
    assert |multiset(xs)| == |xs| && |multiset(ys)| == |ys|;
    forall x ensures x in xs <==> x in ys {
      assert x in xs <==> x in multiset(xs);
      assert x in ys <==> x in multiset(ys);
    }
  }

  lemma DuplicateCounts<T>(xs: seq<T>, i: nat, j: nat)
    requires i < j < |xs| && xs[i] == xs[j]
    ensures multiset(xs)[xs[i]] >= 2
  {
    assert xs == xs[..j] + xs[j..];
    assert xs[..j][i] == xs[i] && xs[j..][0] == xs[i];
    assert xs[i] in multiset(xs[..j]) && xs[i] in multiset(xs[j..]);
  }

  lemma {:induction false} NoDupCounts<T>(xs: seq<T>, x: T)
    requires NoDup(xs)
    ensures multiset(xs)[x] <= 1
  {
    if xs != [] {
      var front := xs[..|xs| - 1];
      assert xs == front + [xs[|xs| - 1]];
      NoDupCounts(front, x);
      if x == xs[|xs| - 1] {
        assert x !in front;
      }
    }
  }

  lemma PermutationNoDup<T>(xs: seq<T>, ys: seq<T>)
    requires multiset(xs) == multiset(ys) && NoDup(xs)
    ensures NoDup(ys)
  {
    if i, j :| 0 <= i < j < |ys| && ys[i] == ys[j] {
      DuplicateCounts(ys, i, j);
      NoDupCounts(xs, ys[i]);
    }
  }

  lemma OrderedHead<T>(xs: seq<T>, le: (T, T) -> bool, y: T)
    requires Ordered(xs, le) && y in xs
    ensures xs[0] == y || le(xs[0], y)
  {
  }

  lemma TailOrdered<T>(xs: seq<T>, le: (T, T) -> bool)
    requires xs != [] && Ordered(xs, le)
    ensures Ordered(xs[1..], le)
  {
  }

  lemma SameHead<T(!new)>(xs: seq<T>, ys: seq<T>, le: (T, T) -> bool)
    requires xs != [] && multiset(xs) == multiset(ys)
    requires Ordered(xs, le) && Ordered(ys, le)
    requires forall a, b :: a in xs && b in xs && le(a, b) && le(b, a) ==> a == b
    ensures ys != [] && xs[0] == ys[0] && multiset(xs[1..]) == multiset(ys[1..])
  {
    PermutationFacts(xs, ys);
    assert xs[0] in ys && ys[0] in xs;
    OrderedHead(xs, le, ys[0]);
    OrderedHead(ys, le, xs[0]);
    assert xs == [xs[0]] + xs[1..] && ys == [ys[0]] + ys[1..];
    assert multiset(xs[1..]) == multiset(xs) - multiset{xs[0]};
    assert multiset(ys[1..]) == multiset(ys) - multiset{ys[0]};
  }

  /** Where order-equal elements are equal, an ordered arrangement is unique. */
  lemma {:induction false} OrderedUnique<T(!new)>(xs: seq<T>, ys: seq<T>, le: (T, T) -> bool)
    requires multiset(xs) == multiset(ys)
    requires Ordered(xs, le) && Ordered(ys, le)
    requires forall a, b :: a in xs && b in xs && le(a, b) && le(b, a) ==> a == b
    ensures xs == ys
  {
    if xs == [] {
      PermutationFacts(xs, ys);
    } else {
      SameHead(xs, ys, le);
      TailOrdered(xs, le);
      TailOrdered(ys, le);
      assert forall a :: a in xs[1..] ==> a in xs;
      OrderedUnique(xs[1..], ys[1..], le);
      assert xs == [xs[0]] + xs[1..] && ys == [ys[0]] + ys[1..];
    }
  }

  /** Strings compare by code points, a proper prefix first. */
  predicate LexLe(a: string, b: string) {
    a == [] || (b != [] && (a[0] < b[0] || (a[0] == b[0] && LexLe(a[1..], b[1..]))))
  }

  lemma {:induction false} LexTotal(a: string, b: string)
    ensures LexLe(a, b) || LexLe(b, a)
    ensures LexLe(a, b) && LexLe(b, a) ==> a == b
  {
    if a != [] && b != [] && a[0] == b[0] {
      LexTotal(a[1..], b[1..]);
      assert a == [a[0]] + a[1..] && b == [b[0]] + b[1..];
    }
  }

  lemma {:induction false} LexTransitive(a: string, b: string, c: string)
    requires LexLe(a, b) && LexLe(b, c)
    ensures LexLe(a, c)
  {
    if a != [] && b != [] && c != [] && a[0] == b[0] == c[0] {
      LexTransitive(a[1..], b[1..], c[1..]);
    }
  }

  /** The two strings first differ at `n`, where `a` has the smaller character. */
  ghost predicate SmallerAt(a: string, b: string, n: nat) {
    n < |a| && n < |b| && a[..n] == b[..n] && a[n] < b[n]
  }

  /** `a` is the start of `b`, or has the smaller character where the two first differ. */
  ghost predicate LexBefore(a: string, b: string) {
    a <= b || exists n: nat :: SmallerAt(a, b, n)
  }

  lemma SmallerInTail(a: string, b: string, n: nat)
    requires a != [] && b != [] && a[0] == b[0]
    ensures SmallerAt(a, b, n + 1) <==> SmallerAt(a[1..], b[1..], n)
  {
    if n < |a| - 1 && n < |b| - 1 {
      assert a[..n + 1] == [a[0]] + a[1..][..n] && b[..n + 1] == [b[0]] + b[1..][..n];
      assert a[1..][..n] == a[..n + 1][1..] && b[1..][..n] == b[..n + 1][1..];
    }
  }

  lemma {:induction false} LexIs(a: string, b: string)
    ensures LexLe(a, b) <==> LexBefore(a, b)
  {
    if a != [] && b != [] && a[0] == b[0] {
      LexIs(a[1..], b[1..]);
      assert a <= b <==> a[1..] <= b[1..] by {
        assert a == [a[0]] + a[1..] && b == [b[0]] + b[1..];
      }
      if n: nat :| SmallerAt(a[1..], b[1..], n) {
        SmallerInTail(a, b, n);
      }
      if n: nat :| SmallerAt(a, b, n) {
        SmallerInTail(a, b, n - 1);
      }
    } else if a != [] && b != [] {
      assert a[0] < b[0] ==> SmallerAt(a, b, 0);
    }
  }
}
