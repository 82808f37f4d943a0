/** What pruning and re-hanging leave alone. */
module Effects {
  import opened Addresses
  import opened Forest
  import opened Topology

  // The link from o to y and the layer of y survive.
  ghost predicate Keeps(s: Mesh, s': Mesh, o: Id, y: Id) {
    && o in s'.kids && y in s'.kids[o]
    && y in s.layer && y in s'.layer && s'.layer[y] == s.layer[y]
  }

  lemma KeepsSelf(s: Mesh, o: Id, y: Id)
    requires o in s.kids && y in s.kids[o] && y in s.layer
    ensures Keeps(s, s, o, y)
  {
  }

  lemma KeepsTrans(s: Mesh, s': Mesh, s'': Mesh, o: Id, y: Id)
    requires Keeps(s, s', o, y) && Keeps(s', s'', o, y)
    ensures Keeps(s, s'', o, y)
  {
  }

  lemma KeepsLink(s: Mesh, s': Mesh, o: Id, y: Id)
    requires Keeps(s, s', o, y)
    ensures o in s'.kids && y in s'.kids[o]
  {
  }

  lemma DropChildKeeps(s: Mesh, x: Id, c: Id, o: Id, y: Id)
    requires Sound(s) && x in s.kids && c in s.kids[x]
    requires o in s.kids && y in s.kids[o] && !Reach(s.kids, c, y)
    ensures Keeps(s, DropChild(s, x, c), o, y)
  {
    ReachSelf(s.kids, c);
    if Reach(s.kids, c, o) { ReachStep(s.kids, c, o, y); }
    if o == x {
      DropChildOwner(s, x, c);
      WithoutIs(s.kids[x], c);
    } else {
      DropChildFrame(s, x, c, o);
    }
    if y == x { DropChildOwner(s, x, c); } else { DropChildFrame(s, x, c, y); }
  }

  lemma CutKeeps(s: Mesh, c: Id, o: Id, y: Id)
    requires Sound(s) && o in s.kids && y in s.kids[o] && !Reach(s.kids, c, y)
    ensures Keeps(s, Cut(s, c), o, y)
  {
    if Owned(s.kids, c) {
      DropChildKeeps(s, Owner(s.kids, c), c, o, y);
    }
  }

  lemma LinkRank(s: Mesh, r: map<Id, nat>, x: Id, c: Id)
    requires Sound(s) && Ranked(s.kids, r) && x in s.kids && c in s.kids[x]
    ensures c in s.kids && c != Root && r[c] < r[x]
  {
  }

  // Pruning below c leaves the list that holds c alone.
  lemma PrunedInside(s: Mesh, r: map<Id, nat>, x: Id, c: Id, table: seq<Mac>)
    requires Sound(s) && Ranked(s.kids, r) && x in s.kids && c in s.kids[x]
    ensures c in s.kids && r[c] < r[x]
    ensures var s' := Prune(s, r, c, table).mesh;
            Ranked(s'.kids, r) && x in s'.kids && s'.kids[x] == s.kids[x] && Fewer(s'.kids, s.kids)
  {
    FewerRank(Prune(s, r, c, table).mesh.kids, s.kids, r);
  }

  // No unlisted node below x is y or above y.
  ghost predicate Spared(k: Kids, x: Id, table: seq<Mac>, y: Id) {
    forall u :: Below(k, x, u) && Reach(k, u, y) ==> u.At? && u.addr in table
  }

  lemma SparedFewer(k': Kids, k: Kids, x: Id, table: seq<Mac>, y: Id)
    requires Fewer(k', k) && Spared(k, x, table, y)
    ensures Spared(k', x, table, y)
  {
    forall u | Below(k', x, u) && Reach(k', u, y)
      ensures u.At? && u.addr in table
    {
      FewerReach(k', k, x, u);
      FewerReach(k', k, u, y);
    }
  }

  lemma SparedInside(k: Kids, x: Id, c: Id, table: seq<Mac>, y: Id)
    requires IsForest(k) && x in k && c in k[x] && Spared(k, x, table, y)
    ensures Spared(k, c, table, y)
    ensures c != Root && (c.addr !in table ==> !Reach(k, c, y))
  {
    LinkNoBack(k, x, c);
    ReachLink(k, x, c);
    forall u | Below(k, c, u) && Reach(k, u, y)
      ensures u.At? && u.addr in table
    {
      ReachVia(k, x, c, u);
      if u == x { LinkNoBack(k, x, c); }
    }
  }

  // Pruning below x keeps every link into a spared node, and its layer.
  lemma {:induction false} PruneKeepsLink(s: Mesh, r: map<Id, nat>, x: Id, i: nat, table: seq<Mac>, o: Id, y: Id)
    requires Sound(s) && Ranked(s.kids, r) && x in s.kids && i <= |s.kids[x]|
    requires o in s.kids && y in s.kids[o] && Spared(s.kids, x, table, y)
    ensures Keeps(s, PruneFrom(s, r, x, i, table).mesh, o, y)
    decreases r[x], |s.kids[x]| - i
  {
    hide IsForest, Spared, Reach, Below, DropChild, Keeps, Fewer, SameAbove;
    LinkEnds(s, o, y);
    if i == |s.kids[x]| {
      KeepsSelf(s, o, y);
    } else {
      var c := s.kids[x][i];
      assert c in s.kids[x];
      var inner := Prune(s, r, c, table).mesh;
      LinkRank(s, r, x, c);
      PrunedInside(s, r, x, c, table);
      SparedInside(s.kids, x, c, table, y);
      PruneKeepsLink(s, r, c, 0, table, o, y);
      KeepsLink(s, inner, o, y);
      SparedFewer(inner.kids, s.kids, x, table, y);
      if c.addr in table {
        PruneKeepsLink(inner, r, x, i + 1, table, o, y);
        KeepsTrans(s, inner, PruneFrom(inner, r, x, i + 1, table).mesh, o, y);
      } else {
        SparedInside(inner.kids, x, c, table, y);
        DropChildKeeps(inner, x, c, o, y);
        KeepsTrans(s, inner, DropChild(inner, x, c), o, y);
      }
    }
  }

  ghost predicate SameLayer(s: Mesh, s': Mesh, y: Id) {
    y in s'.kids && y in s.layer && y in s'.layer && s'.layer[y] == s.layer[y]
  }

  lemma DropChildKeepsLayer(s: Mesh, x: Id, c: Id, y: Id)
    requires Sound(s) && x in s.kids && c in s.kids[x] && y in s.kids && !Reach(s.kids, c, y)
    ensures SameLayer(s, DropChild(s, x, c), y)
  {
    if y == x { DropChildOwner(s, x, c); } else { DropChildFrame(s, x, c, y); }
  }

  // Pruning below x keeps the layer of a spared node.
  lemma {:induction false} PruneKeepsLayer(s: Mesh, r: map<Id, nat>, x: Id, i: nat, table: seq<Mac>, y: Id)
    requires Sound(s) && Ranked(s.kids, r) && x in s.kids && i <= |s.kids[x]|
    requires y in s.kids && Spared(s.kids, x, table, y)
    ensures SameLayer(s, PruneFrom(s, r, x, i, table).mesh, y)
    decreases r[x], |s.kids[x]| - i
  {
    hide IsForest, Spared, Reach, Below, DropChild, Fewer, SameAbove;
    if i < |s.kids[x]| {
      var c := s.kids[x][i];
      assert c in s.kids[x];
      var inner := Prune(s, r, c, table).mesh;
      LinkRank(s, r, x, c);
      PrunedInside(s, r, x, c, table);
      SparedInside(s.kids, x, c, table, y);
      PruneKeepsLayer(s, r, c, 0, table, y);
      SparedFewer(inner.kids, s.kids, x, table, y);
      if c.addr in table {
        PruneKeepsLayer(inner, r, x, i + 1, table, y);
      } else {
        SparedInside(inner.kids, x, c, table, y);
        DropChildKeepsLayer(inner, x, c, y);
      }
    }
  }

  // a is not moved, or nothing from a leads to y.
  ghost predicate Unmoved(k: Kids, d: Id, a: Mac, y: Id) {
    Below(k, d, At(a)) || !Reach(k, At(a), y)
  }

  lemma RehangKeepsLink(s: Mesh, d: Id, a: Mac, o: Id, y: Id)
    requires Sound(s) && d in s.kids && !Reach(s.kids, At(a), d)
    requires o in s.kids && y in s.kids[o] && Unmoved(s.kids, d, a, y)
    ensures Keeps(s, Rehang(s, d, a), o, y)
  {
    hide IsForest, Cut, Reach;
    LinkEnds(s, o, y);
    if !Below(s.kids, d, At(a)) {
      var s1 := Known(s, a);
      KnownForest(s, a);
      if Reach(s1.kids, At(a), y) { KnownBack(s, a, s1.kids, At(a), y); }
      CutKeeps(s1, At(a), o, y);
      ReachSelf(s1.kids, At(a));
    }
  }

  lemma RehangKeepsLayer(s: Mesh, d: Id, a: Mac, y: Id)
    requires Sound(s) && d in s.kids && y in s.kids && Unmoved(s.kids, d, a, y)
    ensures SameLayer(s, Rehang(s, d, a), y)
  {
    hide IsForest, DropChild, Reach;
    if !Below(s.kids, d, At(a)) {
      var s1 := Known(s, a);
      KnownForest(s, a);
      if At(a) in s.kids {
        ReachSelf(s.kids, At(a));
      }
      if Owned(s1.kids, At(a)) {
        if Reach(s1.kids, At(a), y) { KnownBack(s, a, s1.kids, At(a), y); }
        DropChildKeepsLayer(s1, Owner(s1.kids, At(a)), At(a), y);
      }
    }
  }

  lemma StepsReach(k: Kids, n: nat, x: Id, y: Id)
    requires Steps(k, n, x, y)
    ensures Reach(k, x, y)
  {
  }

  lemma ForestSingle(s: Mesh)
    requires Sound(s)
    ensures Single(s.kids) && Closed(s.kids)
  {
  }

  // What moves is neither above nor below d, so it leads to nothing below d.
  lemma MovedApart(k: Kids, d: Id, a: Mac, y: Id)
    requires Single(k) && Reach(k, d, y) && !Below(k, d, At(a)) && !Reach(k, At(a), d)
    ensures !Reach(k, At(a), y)
  {
    if Reach(k, At(a), y) {
      Comparable(k, d, At(a), y);
    }
  }

  lemma {:induction false} RehangKeepsSteps(s: Mesh, d: Id, a: Mac, n: nat, y: Id)
    requires Sound(s) && d in s.kids && !Reach(s.kids, At(a), d) && Steps(s.kids, n, d, y)
    ensures Reach(Rehang(s, d, a).kids, d, y)
  {
    hide IsForest, Reach, Below, Rehang;
    var k' := Rehang(s, d, a).kids;
    RehangSound(s, d, a);
    if n == 0 {
      ReachSelf(k', d);
    } else {
      var o :| Steps(s.kids, n - 1, d, o) && o in s.kids && y in s.kids[o];
      RehangKeepsSteps(s, d, a, n - 1, o);
      StepsReach(s.kids, n, d, y);
      if !Below(s.kids, d, At(a)) { ForestSingle(s); MovedApart(s.kids, d, a, y); }
      RehangKeepsLink(s, d, a, o, y);
      ReachStep(k', d, o, y);
    }
  }

  lemma RehangKeepsBelow(s: Mesh, d: Id, a: Mac, y: Id)
    requires Sound(s) && d in s.kids && !Reach(s.kids, At(a), d) && Below(s.kids, d, y)
    ensures Below(Rehang(s, d, a).kids, d, y)
  {
    var n: nat :| Steps(s.kids, n, d, y);
    RehangKeepsSteps(s, d, a, n, y);
  }

  // Moving a keeps every other listed address unmoved with respect to y.
  lemma UnmovedKept(s: Mesh, d: Id, a: Mac, b: Mac, y: Id)
    requires Sound(s) && d in s.kids && !Reach(s.kids, At(a), d) && y in s.kids
    requires Unmoved(s.kids, d, a, y) && Unmoved(s.kids, d, b, y)
    ensures Unmoved(Rehang(s, d, a).kids, d, b, y)
  {
    if Below(s.kids, d, At(b)) {
      RehangKeepsBelow(s, d, a, At(b));
    } else if !Below(s.kids, d, At(a)) && Reach(Rehang(s, d, a).kids, At(b), y) {
      RehangReach(s, d, a, At(b), y);
    }
  }

  // What a can newly be reached from, is reached from d.
  lemma RehangReach(s: Mesh, d: Id, a: Mac, x: Id, y: Id)
    requires Sound(s) && d in s.kids && !Reach(s.kids, At(a), d) && !Below(s.kids, d, At(a))
    requires y in s.kids && Reach(Rehang(s, d, a).kids, x, y)
    ensures Reach(s.kids, x, y) || Reach(s.kids, At(a), y)
  {
    hide IsForest, Cut, Known, Reach;
    var s1 := Known(s, a);
    var s2 := Cut(s1, At(a));
    KnownForest(s, a);
    CutSound(s1, At(a));
    ForestSingle(s2);
    KnownKeeps(s, a);
    NewLinkReach(s2.kids, d, At(a), x, y);
    if Reach(s2.kids, x, y) { KnownBack(s, a, s2.kids, x, y); } else { KnownBack(s, a, s2.kids, At(a), y); }
  }

  lemma KnownKeeps(s: Mesh, a: Mac)
    ensures s.kids.Keys <= Known(s, a).kids.Keys
  {
  }

  lemma KnownBack(s: Mesh, a: Mac, k: Kids, x: Id, y: Id)
    requires Sound(s) && Fewer(k, Known(s, a).kids) && Reach(k, x, y) && y in s.kids
    ensures Reach(s.kids, x, y)
  {
    KnownForest(s, a);
    FewerReach(k, Known(s, a).kids, x, y);
    ReachEnds(Known(s, a).kids, x, y);
    if x in s.kids { KnownReach(s, a, x, y); } else { ChildlessReach(Known(s, a).kids, x, y); }
  }
}
