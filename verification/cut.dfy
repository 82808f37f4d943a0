/** What removing a node cuts off, exactly. */
module Cutting {
  import opened Addresses
  import opened Forest
  import opened Topology
  import opened Effects
  import opened Reports
  import opened Contract

  // Nothing under the removed node is reached any more: a way down to it would pass its owner.
  lemma {:induction false} CutHides(s: Mesh, c: Id, n: nat, x: Id, y: Id)
    requires Sound(s) && Below(s.kids, x, c) && Reach(s.kids, c, y)
    ensures !Steps(Cut(s, c).kids, n, x, y)
  {
    hide Sound, IsForest, Cut, Reach, Single, Closed;
    var k, k' := s.kids, Cut(s, c).kids;
    if n == 0 {
      BelowApart(s, x, c, y);
    } else if Steps(k', n, x, y) {
      var o :| Steps(k', n - 1, x, o) && o in k' && y in k'[o];
      CutLink(s, c, o, y);
      ReachOwner(k, c, o, y);
      CutHides(s, c, n - 1, x, o);
    }
  }

  lemma BelowApart(s: Mesh, x: Id, c: Id, y: Id)
    requires Sound(s) && Below(s.kids, x, c) && Reach(s.kids, c, y)
    ensures x != y
  {
    hide Acyclic;
    if x == y {
      NoCycle(s.kids, x, c);
    }
  }

  // What is left of the links
  lemma CutLink(s: Mesh, c: Id, o: Id, y: Id)
    requires Sound(s) && o in Cut(s, c).kids && y in Cut(s, c).kids[o]
    ensures o in s.kids && y in s.kids[o] && y != c && Single(s.kids) && Closed(s.kids)
  {
    hide Acyclic, Cut;
    CutSound(s, c);
  }

  lemma {:induction false} CutShows(s: Mesh, c: Id, n: nat, x: Id, y: Id)
    requires Sound(s) && Steps(s.kids, n, x, y) && !Reach(s.kids, c, y)
    ensures Reach(Cut(s, c).kids, x, y)
  {
    hide IsForest, Cut, Reach, Keeps;
    CutSound(s, c);
    if n == 0 {
      FewerSelf(Cut(s, c).kids, s.kids, x);
    } else {
      var o :| Steps(s.kids, n - 1, x, o) && o in s.kids && y in s.kids[o];
      if Reach(s.kids, c, o) { ReachStep(s.kids, c, o, y); }
      CutShows(s, c, n - 1, x, o);
      CutKeeps(s, c, o, y);
      KeepsLink(s, Cut(s, c), o, y);
      ReachStep(Cut(s, c).kids, x, o, y);
    }
  }

  lemma FewerSelf(k': Kids, k: Kids, x: Id)
    requires Fewer(k', k) && x in k
    ensures Reach(k', x, x)
  {
    ReachSelf(k', x);
  }

  // Although undo_branch resets only the first-child spine of the removed node, exactly its whole
  // subtree stops being reachable from the root.
  lemma CutExact(s: Mesh, c: Id, y: Id)
    requires Sound(s) && Below(s.kids, Root, c)
    ensures Reach(Cut(s, c).kids, Root, y) <==> Reach(s.kids, Root, y) && !Reach(s.kids, c, y)
  {
    CutSound(s, c);
    if Reach(Cut(s, c).kids, Root, y) {
      FewerReach(Cut(s, c).kids, s.kids, Root, y);
      if Reach(s.kids, c, y) {
        var n: nat :| Steps(Cut(s, c).kids, n, Root, y);
        CutHides(s, c, n, Root, y);
      }
    }
    if Reach(s.kids, Root, y) && !Reach(s.kids, c, y) {
      var n: nat :| Steps(s.kids, n, Root, y);
      CutShows(s, c, n, Root, y);
    }
  }

  // The reachable rest keeps its lists and layers; only the owner's list loses the removed node.
  lemma CutRest(s: Mesh, c: Id, y: Id)
    requires Sound(s) && y in s.kids && !Reach(s.kids, c, y)
    ensures y in Cut(s, c).kids && y in s.layer && y in Cut(s, c).layer
    ensures Cut(s, c).kids[y] == Without(s.kids[y], c) && Cut(s, c).layer[y] == s.layer[y]
  {
    CutSound(s, c);
    if Owned(s.kids, c) {
      var o := Owner(s.kids, c);
      if y == o {
        DropChildOwner(s, o, c);
      } else {
        DropChildFrame(s, o, c, y);
        assert c in s.kids[y] ==> y == o;
      }
    }
  }

  // The stranded part: the first-child spine is reset, every other list below stays.
  lemma CutInside(s: Mesh, c: Id, y: Id)
    requires Sound(s) && Owned(s.kids, c) && Reach(s.kids, c, y)
    ensures y in s.kids && y in Cut(s, c).kids && y in s.layer && y in Cut(s, c).layer
    ensures Cut(s, c).kids[y] == if y in Spine(s.kids, c) then [] else s.kids[y]
    ensures Cut(s, c).layer[y] == if y in Spine(s.kids, c) then UNDEFINED else s.layer[y]
  {
    var o := Owner(s.kids, c);
    RemovedSpine(s, o, c);
    LinkNoBack(s.kids, o, c);
  }

  /* Endpoints of root devices across a cut */

  // Removal keeps every endpoint at layer 1 exactly when no other endpoint sits on the removed
  // node's first-child spine.
  lemma CutRoots(s: Mesh, roots: map<Mac, Endpoint>, a: Mac)
    requires Sound(s) && RootsKnown(s, roots) && RootsAtLayerOne(s, roots) && Below(s.kids, Root, At(a))
    ensures var u := Remove(s, roots, a);
            && RootsKnown(u.mesh, u.roots)
            && (RootsAtLayerOne(u.mesh, u.roots) <==>
                 forall e :: e in roots && e != a ==> At(e) !in Spine(s.kids, At(a)))
  {
    hide IsForest, Cut, Reach, Spine;
    var u, c := Remove(s, roots, a), At(a);
    BelowOwned(s, c);
    CutSound(s, c);
    forall e | e in roots && e != a
      ensures LayerOf(u.mesh, e) == if At(e) in Spine(s.kids, c) then UNDEFINED else 1
    {
      if Reach(s.kids, c, At(e)) {
        CutInside(s, c, At(e));
      } else {
        CutRest(s, c, At(e));
        if At(e) in Spine(s.kids, c) { SpineReach(s.kids, c, At(e)); }
      }
    }
    LayersOne(u.mesh, u.roots);
  }

  lemma LayersOne(s: Mesh, roots: map<Mac, Endpoint>)
    ensures RootsAtLayerOne(s, roots) <==> forall e :: e in roots ==> LayerOf(s, e) == 1
  {
  }

  lemma BelowOwned(s: Mesh, c: Id)
    requires Sound(s) && Below(s.kids, Root, c)
    ensures Owned(s.kids, c) && c != Root
  {
    var o := BottomLink(s.kids, Root, c);
  }

  // Layers agree with depth along every link.
  ghost predicate LayersAreDepths(s: Mesh) {
    forall x, c :: x in s.kids && c in s.kids[x] && x in s.layer && c in s.layer ==> s.layer[c] == s.layer[x] + 1
  }

  lemma {:induction false} DeeperLayer(s: Mesh, n: nat, x: Id, y: Id)
    requires Sound(s) && LayersAreDepths(s) && Steps(s.kids, n, x, y)
    ensures x in s.layer && y in s.layer && s.layer[y] == s.layer[x] + n
  {
    hide IsForest;
    if n > 0 {
      var o :| Steps(s.kids, n - 1, x, o) && o in s.kids && y in s.kids[o];
      LinkEnds(s, o, y);
      DeeperLayer(s, n - 1, x, o);
    }
  }

  // So it is kept when layers are depths and the removed node is no router.
  lemma CutKeepsRoots(s: Mesh, roots: map<Mac, Endpoint>, a: Mac)
    requires Sound(s) && RootsKnown(s, roots) && RootsAtLayerOne(s, roots) && Below(s.kids, Root, At(a))
    requires LayersAreDepths(s) && LayerOf(s, a) >= 1
    ensures RootsAtLayerOne(Remove(s, roots, a).mesh, Remove(s, roots, a).roots)
  {
    forall e | e in roots && At(e) in Spine(s.kids, At(a))
      ensures e == a
    {
      SpineReach(s.kids, At(a), At(e));
      var n: nat :| Steps(s.kids, n, At(a), At(e));
      DeeperLayer(s, n, At(a), At(e));
    }
    CutRoots(s, roots, a);
  }
}
