/** What each tree operation does to the forest of known nodes and their layers. */
module Topology {
  import opened Addresses
  import opened Forest

  const UNDEFINED := -2
  const DAEMON := -1

  datatype Mesh = Mesh(kids: Kids, layer: map<Id, int>)

  // intact: every pointer write so far has left a forest.
  datatype Outcome = Outcome(mesh: Mesh, change: bool, intact: bool)

  ghost predicate Sound(s: Mesh) {
    s.layer.Keys == s.kids.Keys && IsForest(s.kids) && s.layer[Root] == DAEMON
  }

  const EMPTY := Mesh(map[Root := []], map[Root := DAEMON])

  lemma EmptySound()
    ensures Sound(EMPTY)
  {
    assert Ranked(EMPTY.kids, map[Root := 0]);
  }

  /* Single-node edits */

  function Index(l: seq<Id>, c: Id): (i: nat)
    requires c in l
    ensures i < |l| && l[i] == c && c !in l[..i]
  {
    if l[0] == c then 0 else 1 + Index(l[1..], c)
  }

  function Without(l: seq<Id>, c: Id): seq<Id> {
    if c in l then Skip(l, Index(l, c)) else l
  }

  function Skip(l: seq<Id>, i: nat): seq<Id>
    requires i < |l|
  {
    l[..i] + l[i + 1..]
  }

  // get_node: an unknown address gets a detached node.
  function Known(s: Mesh, a: Mac): Mesh {
    if At(a) in s.kids then s else Mesh(s.kids[At(a) := []], s.layer[At(a) := UNDEFINED])
  }

  // a is known, and if it was not before, it has no layer and no children yet; nothing else changes.
  ghost predicate Met(s: Mesh, s': Mesh, a: Mac) {
    && s'.kids.Keys == s.kids.Keys + {At(a)}
    && (forall i :: i in s.kids ==> s'.kids[i] == s.kids[i])
    && (forall i :: i in s.layer && (i != At(a) || i in s.kids) ==> i in s'.layer && s'.layer[i] == s.layer[i])
    && (At(a) !in s.kids ==> s'.kids[At(a)] == [] && At(a) in s'.layer && s'.layer[At(a)] == UNDEFINED)
  }

  lemma KnownMeets(s: Mesh, a: Mac)
    ensures Met(s, Known(s, a), a)
  {
  }

  function WithLayer(s: Mesh, a: Mac, layer: int): Mesh {
    s.(layer := s.layer[At(a) := layer])
  }

  // Every address of a set known.
  function KnownAll(s: Mesh, macs: set<Mac>): Mesh {
    Mesh(Filled(s.kids, macs, []), Filled(s.layer, macs, UNDEFINED))
  }

  function Filled<V>(m: map<Id, V>, macs: set<Mac>, v: V): map<Id, V> {
    (map a | a in macs :: At(a) := v) + m
  }

  lemma FilledNext<V>(m: map<Id, V>, macs: set<Mac>, a: Mac, v: V)
    ensures At(a) in Filled(m, macs, v) <==> a in macs || At(a) in m
    ensures var f := Filled(m, macs, v); Filled(m, macs + {a}, v) == if At(a) in f then f else f[At(a) := v]
  {
    var m1 := map b | b in macs :: At(b) := v;
    var m2 := map b | b in macs + {a} :: At(b) := v;
    assert m2 == m1[At(a) := v];
  }

  lemma KnownNext(s: Mesh, macs: set<Mac>, a: Mac)
    requires KnownAll(s, macs).kids.Keys == KnownAll(s, macs).layer.Keys
    ensures KnownAll(s, macs + {a}) == Known(KnownAll(s, macs), a)
  {
    FilledNext(s.kids, macs, a, []);
    FilledNext(s.layer, macs, a, UNDEFINED);
  }

  lemma KnownNone(s: Mesh)
    ensures KnownAll(s, {}) == s
  {
    assert Filled(s.kids, {}, []) == s.kids;
    assert Filled(s.layer, {}, UNDEFINED) == s.layer;
  }

  // undo_branch: only the first-child spine is reset.
  ghost function Undo(s: Mesh, x: Id): Mesh {
    var gone := Spine(s.kids, x);
    Mesh(map y | y in s.kids :: if y in gone then [] else s.kids[y],
         map y | y in s.layer :: if y in gone then UNDEFINED else s.layer[y])
  }

  function Unlink(s: Mesh, x: Id, c: Id): Mesh
    requires x in s.kids
  {
    s.(kids := s.kids[x := Without(s.kids[x], c)])
  }

  // remove_child
  ghost function DropChild(s: Mesh, x: Id, c: Id): Mesh
    requires x in s.kids
  {
    if c in s.kids[x] then Undo(Unlink(s, x, c), c) else s
  }

  // Removing a node from whatever list holds it.
  ghost function Cut(s: Mesh, c: Id): Mesh {
    if Owned(s.kids, c) then DropChild(s, Owner(s.kids, c), c) else s
  }

  // add_child
  function Hang(s: Mesh, p: Id, c: Id): Mesh
    requires p in s.kids && p in s.layer
  {
    Mesh(if c in s.kids[p] then s.kids else s.kids[p := s.kids[p] + [c]],
         s.layer[c := s.layer[p] + 1])
  }

  // add_child takes the child out of no list, but ends the chain behind it: a list that held it stops short of it.
  ghost function CutShort(s: Mesh, p: Id, c: Id): Mesh {
    if Owned(s.kids, c) && Owner(s.kids, c) != p
    then var o := Owner(s.kids, c); s.(kids := s.kids[o := s.kids[o][..Index(s.kids[o], c)]])
    else s
  }

  ghost function Take(s: Mesh, p: Id, c: Id): Mesh
    requires p in s.kids && p in s.layer
  {
    Hang(CutShort(s, p, c), p, c)
  }

  /* Their effect on well-formedness */

  lemma IndexUnique(l: seq<Id>, i: nat)
    requires i < |l| && Distinct(l)
    ensures Index(l, l[i]) == i
  {
    var n := Index(l, l[i]);
    assert n < i ==> Apart(l, n, i);
  }

  lemma SkipIs(l: seq<Id>, n: nat)
    requires Distinct(l) && n < |l|
    ensures Distinct(Skip(l, n))
    ensures forall y :: y in Skip(l, n) <==> y in l && y != l[n]
  {
    var l' := Skip(l, n);
    forall i: nat, j: nat | i < j < |l'|
      ensures Apart(l', i, j)
    {
      assert Apart(l, if i < n then i else i + 1, if j < n then j else j + 1);
    }
    forall i: nat | i < |l| && i != n
      ensures l[i] in l' && l[i] != l[n]
    {
      assert Apart(l, if i < n then i else n, if i < n then n else i);
      assert l'[if i < n then i else i - 1] == l[i];
    }
    forall i: nat | i < |l'|
      ensures l'[i] in l && l'[i] != l[n]
    {
      assert l'[i] == l[if i < n then i else i + 1];
    }
  }

  lemma WithoutIs(l: seq<Id>, c: Id)
    requires Distinct(l)
    ensures Distinct(Without(l, c))
    ensures forall y :: y in Without(l, c) <==> y in l && y != c
  {
    if c in l {
      SkipIs(l, Index(l, c));
    }
  }

  lemma LinkEnds(s: Mesh, o: Id, y: Id)
    requires Sound(s) && o in s.kids && y in s.kids[o]
    ensures y in s.kids && y in s.layer && y != Root
  {
  }

  lemma KnownForest(s: Mesh, a: Mac)
    requires Sound(s)
    ensures Sound(Known(s, a)) && At(a) in Known(s, a).kids
    ensures At(a) !in s.kids ==> !Owned(Known(s, a).kids, At(a))
  {
    hide Acyclic, Single, Owned;
    if At(a) !in s.kids {
      AddEmpty(s.kids, At(a));
    }
  }

  lemma AddEmpty(k: Kids, c: Id)
    requires IsForest(k) && c !in k
    ensures Closed(k[c := []]) && Single(k[c := []]) && Acyclic(k[c := []]) && !Owned(k[c := []], c)
  {
    var k' := k[c := []];
    assert Ranked(k', RankOf(k)[c := 0]);
    forall x, y, d | x in k' && y in k' && d in k'[x] && d in k'[y]
      ensures x == y
    {
      assert d in k[x] && d in k[y];
    }
  }

  lemma LayerSound(s: Mesh, a: Mac, layer: int)
    requires Sound(s) && At(a) in s.kids
    ensures Sound(WithLayer(s, a, layer))
  {
  }

  lemma {:induction false} KnownSteps(s: Mesh, a: Mac, n: nat, x: Id, y: Id)
    requires Closed(s.kids) && x in s.kids
    requires Steps(Known(s, a).kids, n, x, y) || Steps(s.kids, n, x, y)
    ensures Steps(Known(s, a).kids, n, x, y) && Steps(s.kids, n, x, y) && y in s.kids
  {
    if n > 0 {
      var k, k' := s.kids, Known(s, a).kids;
      var o :| (Steps(k', n - 1, x, o) && o in k' && y in k'[o]) || (Steps(k, n - 1, x, o) && o in k && y in k[o]);
      KnownSteps(s, a, n - 1, x, o);
    }
  }

  lemma KnownReach(s: Mesh, a: Mac, x: Id, y: Id)
    requires Closed(s.kids) && x in s.kids
    ensures Reach(Known(s, a).kids, x, y) <==> Reach(s.kids, x, y)
  {
    if Reach(Known(s, a).kids, x, y) {
      var n: nat :| Steps(Known(s, a).kids, n, x, y);
      KnownSteps(s, a, n, x, y);
    }
    if Reach(s.kids, x, y) {
      var n: nat :| Steps(s.kids, n, x, y);
      KnownSteps(s, a, n, x, y);
    }
  }

  lemma FewerSound(s': Mesh, s: Mesh)
    requires Sound(s) && Fewer(s'.kids, s.kids)
    requires s'.layer.Keys == s'.kids.Keys && s'.layer[Root] == DAEMON
    requires forall x :: x in s'.kids ==> Distinct(s'.kids[x])
    ensures Sound(s')
  {
    FewerRank(s'.kids, s.kids, RankOf(s.kids));
  }

  lemma UnlinkSound(s: Mesh, x: Id, c: Id)
    requires Sound(s) && x in s.kids && c in s.kids[x]
    ensures Sound(Unlink(s, x, c)) && Fewer(Unlink(s, x, c).kids, s.kids)
    ensures !Owned(Unlink(s, x, c).kids, c)
  {
    WithoutIs(s.kids[x], c);
    FewerSound(Unlink(s, x, c), s);
  }

  lemma UndoSound(s: Mesh, x: Id)
    requires Sound(s) && x != Root
    ensures Sound(Undo(s, x)) && Fewer(Undo(s, x).kids, s.kids)
  {
    if Root in Spine(s.kids, x) {
      SpineReach(s.kids, x, Root);
      UnownedOnlySelf(s.kids, x, Root);
    }
    FewerSound(Undo(s, x), s);
  }

  lemma DropChildSound(s: Mesh, x: Id, c: Id)
    requires Sound(s) && x in s.kids
    ensures Sound(DropChild(s, x, c)) && Fewer(DropChild(s, x, c).kids, s.kids)
    ensures !(c in DropChild(s, x, c).kids[x])
  {
    if c in s.kids[x] {
      UnlinkSound(s, x, c);
      UndoSound(Unlink(s, x, c), c);
    }
  }

  // The spine under a removed child, before and after it is unlinked.
  lemma RemovedSpine(s: Mesh, x: Id, c: Id)
    requires Sound(s) && x in s.kids && c in s.kids[x]
    ensures Spine(Unlink(s, x, c).kids, c) == Spine(s.kids, c)
  {
    UnlinkSound(s, x, c);
    LinkNoBack(s.kids, x, c);
    var k' := Unlink(s, x, c).kids;
    SpineSame(s.kids, k', c);
    forall y | y in k' && Reach(k', c, y)
      ensures k'[y] == s.kids[y]
    {
      FewerReach(k', s.kids, c, y);
    }
    SpineSame(k', s.kids, c);
  }

  // Removing a child changes the owner's list and lists inside the removed subtree only.
  lemma DropChildFrame(s: Mesh, x: Id, c: Id, y: Id)
    requires Sound(s) && x in s.kids && c in s.kids[x] && y in s.kids
    requires y != x && !Reach(s.kids, c, y)
    ensures DropChild(s, x, c).kids[y] == s.kids[y]
    ensures DropChild(s, x, c).layer[y] == s.layer[y]
  {
    RemovedSpine(s, x, c);
    if y in Spine(s.kids, c) { SpineReach(s.kids, c, y); }
  }

  lemma DropChildOwner(s: Mesh, x: Id, c: Id)
    requires Sound(s) && x in s.kids && c in s.kids[x]
    ensures DropChild(s, x, c).kids[x] == Without(s.kids[x], c)
    ensures DropChild(s, x, c).layer[x] == s.layer[x]
  {
    RemovedSpine(s, x, c);
    LinkNoBack(s.kids, x, c);
    if x in Spine(s.kids, c) { SpineReach(s.kids, c, x); }
  }

  lemma HangSound(s: Mesh, p: Id, c: Id)
    requires Sound(s) && p in s.kids && c in s.kids && c != Root
    requires c in s.kids[p] || (!Owned(s.kids, c) && !Reach(s.kids, c, p))
    ensures Sound(Hang(s, p, c))
  {
    hide Acyclic, Single, Owned, Reach, Ranked;
    if c !in s.kids[p] {
      HangRank(s.kids, RankOf(s.kids), p, c);
      HangSingle(s.kids, p, c);
    }
  }

  lemma HangSingle(k: Kids, p: Id, c: Id)
    requires Single(k) && p in k && !Owned(k, c)
    ensures Single(k[p := k[p] + [c]])
  {
    var k' := k[p := k[p] + [c]];
    assert c !in k[p];
    forall i: nat, j: nat | i < j < |k'[p]|
      ensures Apart(k'[p], i, j)
    {
      assert j < |k[p]| ==> Apart(k[p], i, j);
    }
    forall x, y, d | x in k' && y in k' && d in k'[x] && d in k'[y]
      ensures x == y
    {
      if d != c {
        assert d in k[x] && d in k[y];
      }
    }
  }

  lemma HangRank(k: Kids, r: map<Id, nat>, p: Id, c: Id)
    requires Closed(k) && Ranked(k, r) && p in k && c in k && !Reach(k, c, p)
    ensures Acyclic(k[p := k[p] + [c]])
  {
    var k' := k[p := k[p] + [c]];
    var r' := map y | y in k :: if Reach(k, y, p) then r[y] + r[c] + 1 else r[y];
    ReachSelf(k, p);
    forall x, d | x in k' && d in k'[x]
      ensures d in r' && r'[d] < r'[x]
    {
      if d in k[x] && Reach(k, d, p) {
        ReachVia(k, x, d, p);
      }
    }
    assert Ranked(k', r');
  }

  lemma CutShortSound(s: Mesh, p: Id, c: Id)
    requires Sound(s)
    ensures Sound(CutShort(s, p, c)) && Fewer(CutShort(s, p, c).kids, s.kids)
    ensures Owned(CutShort(s, p, c).kids, c) ==> p in s.kids && c in CutShort(s, p, c).kids[p]
  {
    var s' := CutShort(s, p, c);
    if Owned(s.kids, c) && Owner(s.kids, c) != p {
      var o := Owner(s.kids, c);
      var l := s.kids[o];
      var i := Index(l, c);
      forall a: nat, b: nat | a < b < i
        ensures Apart(l[..i], a, b)
      {
        assert Apart(l, a, b);
      }
      FewerSound(s', s);
      assert !Owned(s'.kids, c);
    }
  }

  lemma TakeSound(s: Mesh, p: Id, c: Id)
    requires Sound(s) && p in s.kids && c in s.kids && c != Root && !Reach(s.kids, c, p)
    ensures Sound(Take(s, p, c)) && Take(s, p, c).kids.Keys == s.kids.Keys && c in Take(s, p, c).kids[p]
  {
    hide IsForest, CutShort, Reach;
    var s' := CutShort(s, p, c);
    CutShortSound(s, p, c);
    if Reach(s'.kids, c, p) { FewerReach(s'.kids, s.kids, c, p); }
    HangSound(s', p, c);
  }

  // A child that can be hung is taken from nobody.
  lemma TakeHangs(s: Mesh, p: Id, c: Id)
    requires Single(s.kids) && p in s.kids && p in s.layer && (c in s.kids[p] || !Owned(s.kids, c))
    ensures Take(s, p, c) == Hang(s, p, c)
  {
  }

  lemma CutSound(s: Mesh, c: Id)
    requires Sound(s)
    ensures Sound(Cut(s, c)) && Fewer(Cut(s, c).kids, s.kids) && !Owned(Cut(s, c).kids, c)
  {
    if Owned(s.kids, c) {
      var x := Owner(s.kids, c);
      DropChildSound(s, x, c);
      assert forall y :: y in s.kids && c in s.kids[y] ==> y == x;
    }
  }

  /* unconnected: the known nodes no chain of child links reaches */

  ghost function Unconnected(s: Mesh): set<Mac> {
    set i | i in s.kids && i != Root && !Below(s.kids, Root, i) :: i.addr
  }

  /* remove_descendent: one pass over a sibling list, each child first recursively.
     Pruning a child ends the pass, because undo_branch has cleared its next pointer. */

  // Lists of nodes ranked above h are as they were.
  ghost predicate SameAbove(s: Mesh, s': Mesh, r: map<Id, nat>, h: nat) {
    forall y :: y in s.kids && y in r && r[y] > h ==> y in s'.kids && s'.kids[y] == s.kids[y]
  }

  ghost function Prune(s: Mesh, r: map<Id, nat>, x: Id, table: seq<Mac>): (o: Outcome)
    requires Sound(s) && Ranked(s.kids, r) && x in s.kids
    ensures Sound(o.mesh) && Fewer(o.mesh.kids, s.kids)
    ensures SameAbove(s, o.mesh, r, r[x])
    decreases r[x], 1, 0
  {
    PruneFrom(s, r, x, 0, table)
  }

  ghost function PruneFrom(s: Mesh, r: map<Id, nat>, x: Id, i: nat, table: seq<Mac>): (o: Outcome)
    requires Sound(s) && Ranked(s.kids, r) && x in s.kids && i <= |s.kids[x]|
    ensures Sound(o.mesh) && Fewer(o.mesh.kids, s.kids)
    ensures SameAbove(s, o.mesh, r, r[x])
    decreases r[x], 0, |s.kids[x]| - i
  {
    if i == |s.kids[x]| then Outcome(s, false, true)
    else
      var c := s.kids[x][i];
      assert c in s.kids[x];
      var inner := Prune(s, r, c, table);
      assert inner.mesh.kids[x] == s.kids[x];
      FewerRank(inner.mesh.kids, s.kids, r);
      if c.addr in table then
        var rest := PruneFrom(inner.mesh, r, x, i + 1, table);
        Outcome(rest.mesh, inner.change || rest.change, true)
      else
        DropChildSound(inner.mesh, x, c);
        PruneFrame(inner.mesh, r, x, c);
        Outcome(DropChild(inner.mesh, x, c), true, true)
  }

  lemma PruneFrame(s: Mesh, r: map<Id, nat>, x: Id, c: Id)
    requires Sound(s) && Ranked(s.kids, r) && x in s.kids && c in s.kids[x]
    ensures SameAbove(s, DropChild(s, x, c), r, r[x])
  {
    forall y | y in s.kids && r[y] > r[x]
      ensures DropChild(s, x, c).kids[y] == s.kids[y]
    {
      if Reach(s.kids, c, y) {
        ReachRank(s.kids, r, c, y);
      }
      DropChildFrame(s, x, c, y);
    }
  }

  /* add_descendent */

  // No listed address is d or one of its ancestors.
  ghost predicate NoneAbove(k: Kids, d: Id, table: seq<Mac>) {
    forall a :: a in table ==> !Reach(k, At(a), d)
  }

  // An address not yet below d is taken out of its list and hung under d.
  ghost function Rehang(s: Mesh, d: Id, a: Mac): Mesh
    requires Sound(s) && d in s.kids
  {
    if Below(s.kids, d, At(a)) then s
    else
      KnownForest(s, a);
      CutSound(Known(s, a), At(a));
      Hang(Cut(Known(s, a), At(a)), d, At(a))
  }

  lemma RehangSound(s: Mesh, d: Id, a: Mac)
    requires Sound(s) && d in s.kids && !Reach(s.kids, At(a), d)
    ensures Sound(Rehang(s, d, a)) && s.kids.Keys <= Rehang(s, d, a).kids.Keys
    ensures forall x :: Reach(Rehang(s, d, a).kids, x, d) ==> Reach(s.kids, x, d)
    ensures Below(Rehang(s, d, a).kids, d, At(a))
  {
    var s' := Rehang(s, d, a);
    if !Below(s.kids, d, At(a)) {
      var s1 := Known(s, a);
      var s2 := Cut(s1, At(a));
      KnownForest(s, a);
      CutSound(s1, At(a));
      if At(a) in s.kids { KnownReach(s, a, At(a), d); }
      if At(a) !in s.kids && Reach(s1.kids, At(a), d) { ChildlessReach(s1.kids, At(a), d); }
      if Reach(s2.kids, At(a), d) { FewerReach(s2.kids, s1.kids, At(a), d); }
      HangSound(s2, d, At(a));
      ReachSelf(s.kids, d);
      forall x | Reach(s'.kids, x, d)
        ensures Reach(s.kids, x, d)
      {
        NewLinkReach(s2.kids, d, At(a), x, d);
        FewerReach(s2.kids, s1.kids, x, d);
        ReachEnds(s1.kids, x, d);
        if x in s.kids { KnownReach(s, a, x, d); } else { ChildlessReach(s1.kids, x, d); }
      }
      assert At(a) in s'.kids[d];
      ReachLink(s'.kids, d, At(a));
    }
  }

  // Re-hanging a leaves a forest: a is already below d, is not d or above it, or is above it in a list.
  ghost predicate HangsSafely(k: Kids, d: Id, a: Mac) {
    Below(k, d, At(a)) || !Reach(k, At(a), d) || (At(a) != d && Owned(k, At(a)))
  }

  // An ancestor taken out of its list loses its own list, so nothing leads from it back to d.
  lemma CutAncestor(s: Mesh, d: Id, a: Id)
    requires Sound(s) && d in s.kids && Owned(s.kids, a) && a != d
    ensures a in Cut(s, a).kids && !Reach(Cut(s, a).kids, a, d)
  {
    var o := Owner(s.kids, a);
    UnlinkSound(s, o, a);
    CutSound(s, a);
    SpineUnfold(Unlink(s, o, a).kids, a);
    assert Cut(s, a).kids[a] == [];
    if Reach(Cut(s, a).kids, a, d) {
      ChildlessReach(Cut(s, a).kids, a, d);
    }
  }

  lemma RehangSafe(s: Mesh, d: Id, a: Mac)
    requires Sound(s) && d in s.kids && HangsSafely(s.kids, d, a)
    ensures Sound(Rehang(s, d, a)) && s.kids.Keys <= Rehang(s, d, a).kids.Keys
    ensures Below(Rehang(s, d, a).kids, d, At(a))
  {
    if !Reach(s.kids, At(a), d) {
      RehangSound(s, d, a);
    } else if !Below(s.kids, d, At(a)) {
      hide Cut, IsForest, Reach, Owned, Acyclic;
      ReachKnown(s, At(a), d);
      CutSound(s, At(a));
      CutAncestor(s, d, At(a));
      HangSound(Cut(s, At(a)), d, At(a));
      assert At(a) in Rehang(s, d, a).kids[d];
      ReachLink(Rehang(s, d, a).kids, d, At(a));
    }
  }

  lemma ReachKnown(s: Mesh, x: Id, y: Id)
    requires Sound(s) && Reach(s.kids, x, y)
    ensures x in s.kids
  {
    ReachEnds(s.kids, x, y);
  }

  // The table in order, as far as its writes leave a forest: the first one that does not still raises the flag.
  ghost function AddBelow(s: Mesh, d: Id, table: seq<Mac>): (o: Outcome)
    requires Sound(s) && d in s.kids
    ensures Sound(o.mesh) && s.kids.Keys <= o.mesh.kids.Keys
    ensures !o.intact ==> o.change
    decreases |table|
  {
    if table == [] then Outcome(s, false, true)
    else
      var a := table[0];
      if !HangsSafely(s.kids, d, a) then Outcome(s, true, false)
      else
        RehangSafe(s, d, a);
        var rest := AddBelow(Rehang(s, d, a), d, table[1..]);
        Outcome(rest.mesh, !Below(s.kids, d, At(a)) || rest.change, rest.intact)
  }

  // Taking a out of its list resets d, as its first-child spine runs through d.
  ghost predicate StraysAt(s: Mesh, d: Id, a: Mac) {
    !Below(s.kids, d, At(a)) && Owned(s.kids, At(a)) && d in Spine(s.kids, At(a))
  }

  // Somewhere in the table d loses its parent pointer.
  ghost predicate Strays(s: Mesh, d: Id, table: seq<Mac>)
    requires Sound(s) && d in s.kids
    decreases |table|
  {
    if table == [] || !HangsSafely(s.kids, d, table[0]) then false
    else
      RehangSafe(s, d, table[0]);
      StraysAt(s, d, table[0]) || Strays(Rehang(s, d, table[0]), d, table[1..])
  }

  lemma {:induction false} NoneAboveIntact(s: Mesh, d: Id, table: seq<Mac>)
    requires Sound(s) && d in s.kids && NoneAbove(s.kids, d, table)
    ensures AddBelow(s, d, table).intact && !Strays(s, d, table)
    ensures forall x :: Reach(AddBelow(s, d, table).mesh.kids, x, d) ==> Reach(s.kids, x, d)
    decreases |table|
  {
    hide Rehang, IsForest, Below, Spine, Reach;
    if table != [] {
      if StraysAt(s, d, table[0]) {
        SpineReach(s.kids, At(table[0]), d);
      }
      RehangSound(s, d, table[0]);
      assert forall b :: b in table[1..] ==> b in table;
      NoneAboveIntact(Rehang(s, d, table[0]), d, table[1..]);
    }
  }
}
