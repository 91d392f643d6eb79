/** Trees of dependencies, and the list that puts every item after what it rests on. */
module StorageOrder {
  import opened StorageDeps

  /** Every item's dependencies can be collected. */
  ghost predicate AllFound(cfg: Config, rank: map<string, nat>) {
    cfg.Valid() && Ranked(cfg, rank) && forall id :: id in cfg.items ==> Found(cfg, rank, id)
  }

  function Elements(xs: seq<string>): set<string> { set x | x in xs }

  /** The keys of the item's configuration tree. */
  ghost function Tree(cfg: Config, rank: map<string, nat>, id: string): set<string>
    requires AllFound(cfg, rank) && id in cfg.items
  {
    {id} + Elements(FindDeps(cfg, rank, id).value)
  }

  /** `a` refers to `b`, directly or through others. */
  ghost predicate RestsOn(cfg: Config, rank: map<string, nat>, a: string, b: string)
    requires AllFound(cfg, rank) && a in cfg.items
    decreases rank[a]
  {
    exists key, dep :: RefersTo(cfg.items[a], key, dep) && dep in cfg.items && (dep == b || RestsOn(cfg, rank, dep, b))
  }

  lemma {:induction false} RestsOnLower(cfg: Config, rank: map<string, nat>, a: string, b: string)
    requires AllFound(cfg, rank) && a in cfg.items && RestsOn(cfg, rank, a, b)
    ensures b in cfg.items && rank[b] < rank[a]
    decreases rank[a]
  {
    var key, dep :| RefersTo(cfg.items[a], key, dep) && dep in cfg.items && (dep == b || RestsOn(cfg, rank, dep, b));
    if dep != b {
      RestsOnLower(cfg, rank, dep, b);
    }
  }

  lemma {:induction false} RestsOnTransitive(cfg: Config, rank: map<string, nat>, a: string, b: string, c: string)
    requires AllFound(cfg, rank) && a in cfg.items && b in cfg.items && RestsOn(cfg, rank, a, b)
    requires RestsOn(cfg, rank, b, c)
    ensures RestsOn(cfg, rank, a, c)
    decreases rank[a]
  {
    var key, dep :| RefersTo(cfg.items[a], key, dep) && dep in cfg.items && (dep == b || RestsOn(cfg, rank, dep, b));
    if dep != b {
      RestsOnTransitive(cfg, rank, dep, b, c);
    }
  }

  lemma DirectTree(cfg: Config, rank: map<string, nat>, a: string, key: string, dep: string)
    requires AllFound(cfg, rank) && a in cfg.items && RefersTo(cfg.items[a], key, dep)
    ensures dep in cfg.items && Tree(cfg, rank, dep) <= Tree(cfg, rank, a)
  {
    FindDepsMembers(cfg, rank, a, dep);
    assert Found(cfg, rank, dep);
    forall x | x in Tree(cfg, rank, dep) ensures x in Tree(cfg, rank, a) {
      FindDepsMembers(cfg, rank, a, x);
      assert x == dep || Beside(cfg, rank, key, dep, x);
    }
  }

  lemma {:induction false} RestsOnTree(cfg: Config, rank: map<string, nat>, a: string, b: string)
    requires AllFound(cfg, rank) && a in cfg.items && RestsOn(cfg, rank, a, b)
    ensures b in cfg.items && Tree(cfg, rank, b) <= Tree(cfg, rank, a)
    decreases rank[a]
  {
    var key, dep :| RefersTo(cfg.items[a], key, dep) && dep in cfg.items && (dep == b || RestsOn(cfg, rank, dep, b));
    DirectTree(cfg, rank, a, key, dep);
    if dep != b {
      RestsOnTree(cfg, rank, dep, b);
    }
  }

  /** `x` shares a reference with `b` or with something `b` rests on. */
  ghost predicate SharesUnder(cfg: Config, rank: map<string, nat>, b: string, x: string)
    requires AllFound(cfg, rank) && b in cfg.items
  {
    exists y, key, dep :: y in cfg.items && (y == b || RestsOn(cfg, rank, b, y))
      && RefersTo(cfg.items[y], key, dep) && Shares(cfg, x, key, dep)
  }

  /** A tree holds the item, what it rests on, and whatever shares a reference along the way; nothing else. */
  lemma {:induction false} TreeMembers(cfg: Config, rank: map<string, nat>, b: string, x: string)
    requires AllFound(cfg, rank) && b in cfg.items
    ensures x in Tree(cfg, rank, b) <==> x == b || RestsOn(cfg, rank, b, x) || SharesUnder(cfg, rank, b, x)
    decreases rank[b]
  {
    FindDepsMembers(cfg, rank, b, x);
    if x in Tree(cfg, rank, b) && x != b {
      var key, dep :| RefersTo(cfg.items[b], key, dep) && (x == dep || Beside(cfg, rank, key, dep, x));
      assert Found(cfg, rank, dep);
      if x != dep && !Shares(cfg, x, key, dep) {
        TreeMembers(cfg, rank, dep, x);
        if SharesUnder(cfg, rank, dep, x) {
          var y, k, e :| y in cfg.items && (y == dep || RestsOn(cfg, rank, dep, y))
            && RefersTo(cfg.items[y], k, e) && Shares(cfg, x, k, e);
          assert RestsOn(cfg, rank, b, y);
        }
      }
    }
    if RestsOn(cfg, rank, b, x) {
      RestsOnTree(cfg, rank, b, x);
    }
    if SharesUnder(cfg, rank, b, x) {
      var y, k, e :| y in cfg.items && (y == b || RestsOn(cfg, rank, b, y))
        && RefersTo(cfg.items[y], k, e) && Shares(cfg, x, k, e);
      FindDepsMembers(cfg, rank, y, x);
      assert Beside(cfg, rank, k, e, x);
      assert x in Tree(cfg, rank, y);
      if y != b {
        RestsOnTree(cfg, rank, b, y);
      }
    }
  }

  /** The item shares no reference with anything it rests on. */
  ghost predicate NoSharing(cfg: Config, rank: map<string, nat>, a: string)
    requires AllFound(cfg, rank) && a in cfg.items
  {
    forall y, key, dep :: y in cfg.items && RestsOn(cfg, rank, a, y) && RefersTo(cfg.items[y], key, dep) ==>
      !Shares(cfg, a, key, dep)
  }

  /** An item is in the tree of something it rests on exactly when it shares a reference there. */
  lemma InLowerTree(cfg: Config, rank: map<string, nat>, a: string, b: string)
    requires AllFound(cfg, rank) && a in cfg.items && RestsOn(cfg, rank, a, b) && b in cfg.items
    ensures a in Tree(cfg, rank, b) <==> SharesUnder(cfg, rank, b, a)
    ensures NoSharing(cfg, rank, a) ==> a !in Tree(cfg, rank, b)
  {
    RestsOnLower(cfg, rank, a, b);
    TreeMembers(cfg, rank, b, a);
    if RestsOn(cfg, rank, b, a) {
      RestsOnLower(cfg, rank, b, a);
    }
    if SharesUnder(cfg, rank, b, a) {
      var y, key, dep :| y in cfg.items && (y == b || RestsOn(cfg, rank, b, y))
        && RefersTo(cfg.items[y], key, dep) && Shares(cfg, a, key, dep);
      if y != b {
        RestsOnTransitive(cfg, rank, a, b, y);
      }
    }
  }

  ghost function Level(cfg: Config, rank: map<string, nat>, id: string): nat
    requires AllFound(cfg, rank) && id in cfg.items
  {
    |Tree(cfg, rank, id)|
  }

  lemma SubsetSize(a: set<string>, b: set<string>)
    requires a <= b
    ensures |a| <= |b| && (|a| == |b| <==> a == b)
  {
    assert b == a + (b - a);
    if |a| == |b| {
      assert |b - a| == 0;
    }
  }

  /** An item is never on a lower level than what it rests on; it is on a higher one exactly when the trees differ,
      as they do when it shares no reference with anything it rests on. */
  lemma LevelsRise(cfg: Config, rank: map<string, nat>, a: string, b: string)
    requires AllFound(cfg, rank) && a in cfg.items && RestsOn(cfg, rank, a, b)
    ensures b in cfg.items && Level(cfg, rank, b) <= Level(cfg, rank, a)
    ensures Level(cfg, rank, b) < Level(cfg, rank, a) <==> Tree(cfg, rank, b) != Tree(cfg, rank, a)
    ensures NoSharing(cfg, rank, a) ==> Level(cfg, rank, b) < Level(cfg, rank, a)
  {
    RestsOnTree(cfg, rank, a, b);
    SubsetSize(Tree(cfg, rank, b), Tree(cfg, rank, a));
    InLowerTree(cfg, rank, a, b);
    assert a in Tree(cfg, rank, a);
  }
}
