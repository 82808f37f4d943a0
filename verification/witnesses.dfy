/** Runs from boot in which the tree is not what its reports seem to ask for. */
module Witnesses {
  import opened Addresses
  import opened Forest
  import opened Topology
  import opened Memory
  import opened Reports
  import opened Contract
  import opened Breaking
  import opened Convergence
  import opened Mending
  import C = Connection
  import Pruning
  import RootDevices

  // The tree after one report of a device with nothing below it
  function FirstMesh(r: Report): Mesh
    requires r.mac != r.parent
  {
    var k := map[Root := if r.layer == 1 then [At(r.parent)] else [], At(r.mac) := [], At(r.parent) := [At(r.mac)]];
    Mesh(k, map[Root := DAEMON, At(r.mac) := r.layer, At(r.parent) := r.layer - 1])
  }

  lemma PlacedIs(r: Report)
    requires r.mac != r.parent
    ensures Placed(EMPTY, r).kids == map[Root := [], At(r.mac) := [], At(r.parent) := []]
    ensures Placed(EMPTY, r).layer == map[Root := DAEMON, At(r.mac) := r.layer, At(r.parent) := r.layer - 1]
  {
  }

  lemma FirstPlaced(r: Report)
    requires r.mac != r.parent
    ensures Placeable(EMPTY, r) && Joins(EMPTY, r) && Hung(EMPTY, r) == FirstMesh(r)
  {
    hide Placed, Sound, Reach, Take;
    EmptySound();
    PlacedIs(r);
    var s1, p, d := Placed(EMPTY, r), At(r.parent), At(r.mac);
    if Reach(s1.kids, d, p) {
      ChildlessReach(s1.kids, d, p);
    }
    NoOwner(s1.kids);
    PlacedSound(EMPTY, r);
    TakeHangs(s1, p, d);
    var h := Hang(s1, p, d);
    FirstHangs(s1, r);
    TakeHangs(h, Root, p);
    NoTailsYet(s1, h, r);
  }

  // The two add_child calls on three nodes without links
  lemma FirstHangs(s: Mesh, r: Report)
    requires r.mac != r.parent && s.kids == map[Root := [], At(r.mac) := [], At(r.parent) := []]
    requires s.layer == map[Root := DAEMON, At(r.mac) := r.layer, At(r.parent) := r.layer - 1]
    ensures var h := Hang(s, At(r.parent), At(r.mac));
            && Single(h.kids) && !Owned(h.kids, At(r.parent))
            && (if r.layer == 1 then Hang(h, Root, At(r.parent)) else h) == FirstMesh(r)
  {
    var p, d := At(r.parent), At(r.mac);
    var h := Hang(s, p, d);
    var none: seq<Id> := [];
    assert none + [d] == [d] && none + [p] == [p];
    OnlyOwner(h.kids, p, d);
    var s' := if r.layer == 1 then Hang(h, Root, p) else h;
    assert s'.kids == FirstMesh(r).kids && s'.layer == FirstMesh(r).layer;
  }

  lemma OnlyOwner(k: Kids, p: Id, d: Id)
    requires p in k && k[p] == [d] && p != d && forall x :: x in k && x != p ==> k[x] == []
    ensures Single(k) && !Owned(k, p)
  {
  }

  lemma NoTailsYet(s: Mesh, h: Mesh, r: Report)
    requires !Owned(s.kids, At(r.mac)) && Root in h.kids
    ensures DeviceTails(s, r) == map[] && !Follows(h.kids, DeviceTails(s, r), r)
  {
  }

  lemma NoOwner(k: Kids)
    requires forall x :: x in k ==> k[x] == []
    ensures forall c :: !Owned(k, c)
  {
  }

  // A device with nothing below it that lists nothing: the report ends where both ends are hung.
  lemma LeafUpdate(s: Mesh, roots: map<Mac, Endpoint>, r: Report)
    requires Placeable(s, r) && Joins(s, r) && r.table == [] && At(r.mac) in Hung(s, r).kids
    requires Hung(s, r).kids[At(r.mac)] == []
    ensures Update(s, roots, r).intact && Update(s, roots, r).mesh == Hung(s, r)
    ensures Relinked(Placed(s, r), Hung(s, r)) ==> Update(s, roots, r).change
    ensures Update(s, roots, r).roots == Fixed(Hung(s, r), Managed(Hung(s, r), roots, r, true))
  {
    hide Placeable, Placed, Hung, IsForest, Fixed, Managed, Reach, TailsOf;
    HungSound(s, r);
    TailsNone(s, r);
    var h := Hung(s, r);
    PruneIs(h, RankOf(h.kids), At(r.mac), []);
    AddBelowNone(h, At(r.mac));
  }

  lemma FirstUpdate(r: Report)
    requires r.mac != r.parent && r.table == []
    ensures Sound(EMPTY) && Sound(FirstMesh(r))
    ensures var u := Update(EMPTY, map[], r);
            && u.intact && u.change && u.mesh == FirstMesh(r)
            && (r.layer == 1 ==> u.roots == map[r.mac := r.endpoint])
  {
    hide Placeable, Joins, Placed, Hung, IsForest, Update;
    EmptySound();
    FirstPlaced(r);
    JoinsSound(EMPTY, r);
    LeafUpdate(EMPTY, map[], r);
    NewLink(r);
    if r.layer == 1 {
      assert Fixed(FirstMesh(r), Managed(FirstMesh(r), map[], r, true)) == map[r.mac := r.endpoint];
    }
  }

  lemma JoinsSound(s: Mesh, r: Report)
    requires Joins(s, r)
    ensures Sound(Hung(s, r))
  {
    HungSound(s, r);
  }

  lemma NewLink(r: Report)
    requires r.mac != r.parent && Joins(EMPTY, r) && Hung(EMPTY, r) == FirstMesh(r)
    ensures Relinked(Placed(EMPTY, r), Hung(EMPTY, r))
  {
    assert Placed(EMPTY, r).kids[At(r.parent)] == [];
  }

  // The connection state at boot without a device, and after a report that changed the tree
  lemma FirstStep(r: Report) returns (c: C.Conn)
    requires r.mac != r.parent && r.table == []
    ensures C.Step(C.Boot({}), C.Report(r), c) && c.intact
    ensures Sound(EMPTY) && c.mesh == FirstMesh(r) && c.roots == Update(EMPTY, map[], r).roots
    ensures c.listed == {} && c.log == []
  {
    hide Update, Unconnected, Sound;
    KnownNone(EMPTY);
    FirstUpdate(r);
    c := C.Conn(FirstMesh(r), Update(EMPTY, map[], r).roots, {}, Unconnected(FirstMesh(r)), [], true);
    assert c.log[|C.Boot({}).log|..] == [];
  }

  lemma TwoSteps(c: C.Conn, o: C.Op, c': C.Conn, o': C.Op, c'': C.Conn)
    requires C.Step(c, o, c') && C.Step(c', o', c'')
    ensures C.Run([c, c', c''], [o, o'])
  {
    hide C.Step;
    var cs, ops := [c, c', c''], [o, o'];
    assert C.StepAt(cs, ops, 0) && C.StepAt(cs, ops, 1);
  }

  // A report on from there that ends with a forest, no device being listed
  lemma NextStep(c: C.Conn, r: Report) returns (c': C.Conn)
    requires c.intact && c.listed == {} && c.log == [] && Sound(c.mesh) && Update(c.mesh, c.roots, r).intact
    ensures C.Step(c, C.Report(r), c') && c'.intact && c'.listed == {} && c'.log == []
    ensures c'.mesh == Update(c.mesh, c.roots, r).mesh && c'.roots == Update(c.mesh, c.roots, r).roots
  {
    hide Update, Unconnected, Sound;
    var u := Update(c.mesh, c.roots, r);
    c' := C.Conn(u.mesh, u.roots, {}, if u.change then Unconnected(u.mesh) else c.unconnected, [], true);
    assert c'.log[|c.log|..] == [];
  }

  // And one that does not
  lemma LastStep(c: C.Conn, r: Report)
    requires c.intact && Sound(c.mesh) && !Update(c.mesh, c.roots, r).intact
    ensures C.Step(c, C.Report(r), c.(intact := false))
  {
    hide Sound, Update;
  }

  // A device under p that has nothing below it and reports q as its new parent
  lemma LeafMoves(s: Mesh, d: Mac, p: Mac, q: Mac, e: Endpoint)
    requires Sound(s) && d != q && p != q && At(p) in s.kids && At(d) in s.kids[At(p)]
    requires At(d) in s.kids && s.kids[At(d)] == []
    ensures Orderly(s, Report(d, 2, q, [], e)) && Moves(s, Report(d, 2, q, [], e), At(p))
    ensures DeviceBreaks(s, Report(d, 2, q, [], e))
  {
    hide Acyclic, Single, Reach;
    var r := Report(d, 2, q, [], e);
    PlacedSound(s, r);
    PlacedLists(s, r);
    var k := Placed(s, r).kids;
    if Reach(k, At(d), At(q)) {
      ChildlessReach(k, At(d), At(q));
    }
    SoundSingle(Placed(s, r));
    OwnerIs(k, At(p), At(d));
  }

  // What becomes of the two parents' lists
  lemma ParentMends(d: Mac, p: Mac, q: Mac, e: Endpoint, roots: map<Mac, Endpoint>)
    requires d != p && d != q && p != q && Sound(FirstMesh(Report(d, 2, p, [], e)))
    ensures var s, r := FirstMesh(Report(d, 2, p, [], e)), Report(d, 2, q, [], e);
            var u := Update(s, roots, r);
            && DeviceBreaks(s, r) && u.intact && Sound(u.mesh)
            && At(p) in u.mesh.kids && u.mesh.kids[At(p)] == []
            && At(q) in u.mesh.kids && u.mesh.kids[At(q)] == [At(d)]
  {
    hide DeviceBreaks, Sound, Update, FirstMesh, Orderly, Moves, Pruning.Listed;
    var s, r := FirstMesh(Report(d, 2, p, [], e)), Report(d, 2, q, [], e);
    FirstLists(Report(d, 2, p, [], e));
    LeafMoves(s, d, p, q, e);
    DeviceMoved(s, roots, r, At(p));
    MovedLeaves(s, roots, r, At(p));
    NewParent(s, roots, r);
  }

  // A device that changes its parent, first in its old parent's list: the report tears that list, and the same
  // call of update repairs it.
  lemma ParentChange(d: Mac, p: Mac, q: Mac, e: Endpoint) returns (cs: seq<C.Conn>)
    requires d != p && d != q && p != q
    ensures C.Run(cs, [C.Report(Report(d, 2, p, [], e)), C.Report(Report(d, 2, q, [], e))])
    ensures cs[0] == C.Boot({}) && cs[1].intact && DeviceBreaks(cs[1].mesh, Report(d, 2, q, [], e))
    ensures cs[2].intact && Sound(cs[2].mesh) && At(p) in cs[2].mesh.kids && At(q) in cs[2].mesh.kids
    ensures cs[2].mesh.kids[At(p)] == [] && cs[2].mesh.kids[At(q)] == [At(d)]
  {
    hide C.Step, C.Run, C.Boot, DeviceBreaks, Sound, Update, FirstMesh;
    var r, r' := Report(d, 2, p, [], e), Report(d, 2, q, [], e);
    var c := FirstStep(r);
    FirstUpdate(r);
    ParentMends(d, p, q, e, c.roots);
    var c' := NextStep(c, r');
    TwoSteps(C.Boot({}), C.Report(r), c, C.Report(r'), c');
    cs := [C.Boot({}), c, c'];
    assert C.Run(cs, [C.Report(r), C.Report(r')]) && cs[1] == c && cs[2] == c';
  }

  lemma FirstLists(r: Report)
    requires r.mac != r.parent
    ensures var k := FirstMesh(r).kids;
            && At(r.mac) in k && k[At(r.mac)] == [] && At(r.parent) in k && k[At(r.parent)] == [At(r.mac)]
            && Index(k[At(r.parent)], At(r.mac)) == 0
            && forall x :: x in k <==> x == Root || x == At(r.mac) || x == At(r.parent)
  {
  }

  // A parent not known before has the device alone.
  lemma NewParent(s: Mesh, roots: map<Mac, Endpoint>, r: Report)
    requires Orderly(s, r) && At(r.parent) !in s.kids && r.table == []
    ensures var k := Update(s, roots, r).mesh.kids; At(r.parent) in k && k[At(r.parent)] == [At(r.mac)]
    ensures Sound(Update(s, roots, r).mesh)
  {
    hide Update, IsForest, Placed, Reach, TailsOf, Handled, TableFits;
    RootDevices.OrderlyHandled(s, r);
    ReportContract(s, roots, r);
    var s' := Update(s, roots, r).mesh;
    forall y | y in s'.kids[At(r.parent)]
      ensures y == At(r.mac)
    {
      ReportLinks(s, roots, r, At(r.parent), y);
    }
    ForestDistinct(s', At(r.parent));
    OnlyMember(s'.kids[At(r.parent)], At(r.mac));
  }

  lemma OnlyMember(l: seq<Id>, c: Id)
    requires Distinct(l) && c in l && forall y :: y in l ==> y == c
    ensures l == [c]
  {
    assert forall i :: 0 <= i < |l| ==> l[i] in l;
    assert |l| > 1 ==> Apart(l, 0, 1);
  }

  // The tree after a second device has reported the same parent
  lemma SecondUpdate(x: Mac, d: Mac, p: Mac, e: Endpoint, roots: map<Mac, Endpoint>)
    requires x != p && d != p && x != d && Sound(FirstMesh(Report(x, 2, p, [], e)))
    ensures var u := Update(FirstMesh(Report(x, 2, p, [], e)), roots, Report(d, 2, p, [], e));
            && u.intact && Sound(u.mesh)
            && u.mesh.kids == map[Root := [], At(x) := [], At(p) := [At(x), At(d)], At(d) := []]
  {
    hide Placed, Reach, Sound, Take, Update, Hung, FirstMesh, CanHang;
    var s, r := FirstMesh(Report(x, 2, p, [], e)), Report(d, 2, p, [], e);
    PlacedSound(s, r);
    SecondPlaced(x, d, p, e);
    SecondHangs(Placed(s, r).kids, x, d, p);
    assert Placeable(s, r);
    PlaceableJoins(s, r);
    SecondHung(s, r);
    JoinsSound(s, r);
    var one := [At(x)];
    assert one + [At(d)] == [At(x), At(d)];
    LeafUpdate(s, roots, r);
  }

  lemma SecondHangs(k: Kids, x: Mac, d: Mac, p: Mac)
    requires x != p && d != p && x != d && Closed(k)
    requires k == map[Root := [], At(x) := [], At(p) := [At(x)], At(d) := []]
    ensures CanHang(k, At(p), At(d))
  {
    hide Reach;
    if Reach(k, At(d), At(p)) {
      ChildlessReach(k, At(d), At(p));
    }
  }

  lemma SecondPlaced(x: Mac, d: Mac, p: Mac, e: Endpoint)
    requires x != p && d != p && x != d
    ensures Placed(FirstMesh(Report(x, 2, p, [], e)), Report(d, 2, p, [], e)).kids ==
            map[Root := [], At(x) := [], At(p) := [At(x)], At(d) := []]
  {
  }

  lemma SecondHung(s: Mesh, r: Report)
    requires Joins(s, r) && r.layer == 2 && CanHang(Placed(s, r).kids, At(r.parent), At(r.mac))
    ensures At(r.parent) in Placed(s, r).kids && At(r.parent) in Placed(s, r).layer
    ensures Hung(s, r) == Hang(Placed(s, r), At(r.parent), At(r.mac))
  {
    hide Placed, Reach, Acyclic;
    PlacedSound(s, r);
    TakeHangs(Placed(s, r), At(r.parent), At(r.mac));
  }

  lemma ThreeSteps(c: C.Conn, o: C.Op, c1: C.Conn, o1: C.Op, c2: C.Conn, o2: C.Op, c3: C.Conn)
    requires C.Step(c, o, c1) && C.Step(c1, o1, c2) && C.Step(c2, o2, c3)
    ensures C.Run([c, c1, c2, c3], [o, o1, o2])
  {
    hide C.Step;
    var cs, ops := [c, c1, c2, c3], [o, o1, o2];
    assert C.StepAt(cs, ops, 0) && C.StepAt(cs, ops, 1) && C.StepAt(cs, ops, 2);
  }

  lemma SecondTears(s: Mesh, x: Mac, d: Mac, p: Mac, q: Mac, e: Endpoint, roots: map<Mac, Endpoint>)
    requires x != d && x != p && d != p && d != q && p != q && Sound(s)
    requires s.kids == map[Root := [], At(x) := [], At(p) := [At(x), At(d)], At(d) := []]
    ensures var r := Report(d, 2, q, [], e);
            Orderly(s, r) && Moves(s, r, At(p)) && !Update(s, roots, r).intact
  {
    hide Sound, Update, Orderly, Moves, DeviceBreaks;
    var l := [At(x), At(d)];
    assert Index(l, At(d)) == 1 by {
      assert l[1..] == [At(d)];
    }
    assert !Pruning.Listed(l[0], []);
    LeafMoves(s, d, p, q, e);
    DeviceMoved(s, roots, Report(d, 2, q, [], e), At(p));
  }

  // The same with another device before it in the list: the repair does not find the torn list.
  lemma SecondChild(x: Mac, d: Mac, p: Mac, q: Mac, e: Endpoint) returns (cs: seq<C.Conn>)
    requires x != d && x != p && d != p && d != q && p != q
    ensures C.Run(cs, [C.Report(Report(x, 2, p, [], e)), C.Report(Report(d, 2, p, [], e)),
                      C.Report(Report(d, 2, q, [], e))])
    ensures cs[0] == C.Boot({}) && cs[2].intact && !cs[3].intact
    ensures Orderly(cs[2].mesh, Report(d, 2, q, [], e)) && Moves(cs[2].mesh, Report(d, 2, q, [], e), At(p))
    ensures At(p) in cs[2].mesh.kids && cs[2].mesh.kids[At(p)] == [At(x), At(d)]
  {
    hide C.Step, C.Run, C.Boot, Sound, Update, FirstMesh, Orderly, Moves;
    var r, r1, r2 := Report(x, 2, p, [], e), Report(d, 2, p, [], e), Report(d, 2, q, [], e);
    var c1 := FirstStep(r);
    FirstUpdate(r);
    SecondUpdate(x, d, p, e, c1.roots);
    var c2 := NextStep(c1, r1);
    SecondTears(c2.mesh, x, d, p, q, e, c2.roots);
    LastStep(c2, r2);
    var c3 := c2.(intact := false);
    ThreeSteps(C.Boot({}), C.Report(r), c1, C.Report(r1), c2, C.Report(r2), c3);
    cs := [C.Boot({}), c1, c2, c3];
    assert cs[2] == c2 && cs[3] == c3;
    assert Orderly(cs[2].mesh, r2) && Moves(cs[2].mesh, r2, At(p)) && cs[2].mesh.kids[At(p)] == [At(x), At(d)];
    assert C.Run(cs, [C.Report(r), C.Report(r1), C.Report(r2)]);
  }

  lemma CutRouter(r: Report)
    requires r.mac != r.parent && r.layer == 1 && Sound(FirstMesh(r))
    ensures var s, p := FirstMesh(r), At(r.parent);
            && Below(s.kids, Root, p) && At(r.mac) in Cut(s, p).layer && Cut(s, p).layer[At(r.mac)] == UNDEFINED
  {
    var s, p, d := FirstMesh(r), At(r.parent), At(r.mac);
    assert p in s.kids[Root] && Owner(s.kids, p) == Root;
    ReachLink(s.kids, Root, p);
    RemovedSpine(s, Root, p);
    SpineUnfold(s.kids, p);
    SpineUnfold(s.kids, d);
  }

  lemma RemoveStep(c: C.Conn, r: Report)
    returns (c': C.Conn)
    requires c.intact && c.listed == {} && c.log == []
    requires r.mac != r.parent && r.layer == 1 && c.mesh == FirstMesh(r) && Sound(c.mesh)
    requires c.roots == map[r.mac := r.endpoint]
    ensures C.Step(c, C.Remove(r.parent), c') && c'.intact
    ensures RootsAtLayerOne(c.mesh, c.roots) && !RootsAtLayerOne(c'.mesh, c'.roots)
  {
    hide Cut, Below, Sound, Unconnected;
    CutRouter(r);
    var u := Remove(c.mesh, c.roots, r.parent);
    c' := C.Conn(u.mesh, u.roots, {}, Unconnected(u.mesh), [], true);
    assert c'.log[|c.log|..] == [];
    assert r.mac in u.roots;
  }

  // A router that is removed: the device hung under it keeps its endpoint without a layer.
  lemma RouterRemoved(d: Mac, p: Mac, e: Endpoint) returns (cs: seq<C.Conn>)
    requires d != p
    ensures C.Run(cs, [C.Report(Report(d, 1, p, [], e)), C.Remove(p)])
    ensures cs[0] == C.Boot({}) && cs[2].intact
    ensures RootsAtLayerOne(cs[1].mesh, cs[1].roots) && !RootsAtLayerOne(cs[2].mesh, cs[2].roots)
  {
    hide C.Step, C.Run, C.Boot, Sound, Update, FirstMesh, RootsAtLayerOne;
    var r := Report(d, 1, p, [], e);
    var c := FirstStep(r);
    FirstUpdate(r);
    var c' := RemoveStep(c, r);
    TwoSteps(C.Boot({}), C.Report(r), c, C.Remove(p), c');
    cs := [C.Boot({}), c, c'];
    assert C.Run(cs, [C.Report(r), C.Remove(p)]) && cs[1] == c && cs[2] == c';
  }

  // The mesh with x under d and d under the router p
  function ChainOf(x: Mac, d: Mac, p: Mac): Real {
    Real(map[d := p, x := d], map[d := 1, x := 2])
  }

  lemma ChainIs(x: Mac, d: Mac, p: Mac, e: Endpoint)
    requires x != d && x != p && d != p
    ensures IsMesh(ChainOf(x, d, p)) && LayerOne(ChainOf(x, d, p), d)
    ensures Truthful(ChainOf(x, d, p), Report(d, 1, p, [x], e))
  {
  }

  lemma ChainAncestral(x: Mac, d: Mac, p: Mac, e: Endpoint)
    requires x != d && x != p && d != p
    ensures IsMesh(ChainOf(x, d, p)) && AllAncestral(ChainOf(x, d, p), FirstMesh(Report(x, 1, d, [], e)).kids)
  {
    ChainIs(x, d, p, e);
  }

  // A device x that once reported d as its router leaves d right under the root. If d is really a layer-1
  // device under p, with x below it, its own true report tears the root's list for good.
  lemma RouterThatIsNone(x: Mac, d: Mac, p: Mac, e: Endpoint) returns (cs: seq<C.Conn>)
    requires x != d && x != p && d != p
    ensures C.Run(cs, [C.Report(Report(x, 1, d, [], e)), C.Report(Report(d, 1, p, [x], e))])
    ensures cs[0] == C.Boot({}) && cs[1].intact && !cs[2].intact
    ensures Sound(cs[1].mesh) && Root in cs[1].mesh.kids && cs[1].mesh.kids[Root] == [At(d)]
    ensures Orderly(cs[1].mesh, Report(d, 1, p, [x], e))
    ensures IsMesh(ChainOf(x, d, p)) && LayerOne(ChainOf(x, d, p), d)
    ensures Truthful(ChainOf(x, d, p), Report(d, 1, p, [x], e))
  {
    hide C.Step, C.Run, C.Boot, Orderly, Sound, Update, Truthful, IsMesh, LayerOne, FirstMesh, ChainOf;
    var r, r' := Report(x, 1, d, [], e), Report(d, 1, p, [x], e);
    var c := FirstStep(r);
    ChainIs(x, d, p, e);
    RouterTears(x, d, p, e, c.roots);
    LastStep(c, r');
    var c' := c.(intact := false);
    TwoSteps(C.Boot({}), C.Report(r), c, C.Report(r'), c');
    cs := [C.Boot({}), c, c'];
    assert cs[1] == c && cs[2] == c';
    assert Sound(cs[1].mesh) && cs[1].mesh.kids[Root] == [At(d)] && Orderly(cs[1].mesh, r');
    assert C.Run(cs, [C.Report(r), C.Report(r')]);
  }

  lemma RouterTears(x: Mac, d: Mac, p: Mac, e: Endpoint, roots: map<Mac, Endpoint>)
    requires x != d && x != p && d != p
    ensures var s, r := FirstMesh(Report(x, 1, d, [], e)), Report(d, 1, p, [x], e);
            && Sound(s) && Root in s.kids && s.kids[Root] == [At(d)] && Orderly(s, r)
            && !Update(s, roots, r).intact
  {
    hide Orderly, Sound, Update, Truthful, IsMesh, LayerOne, FirstMesh, AllAncestral, ChainOf, TailsOf, Mended;
    FirstUpdate(Report(x, 1, d, [], e));
    ChainIs(x, d, p, e);
    ChainAncestral(x, d, p, e);
    RootIs(Report(x, 1, d, [], e));
    RootLinkEnds(ChainOf(x, d, p), FirstMesh(Report(x, 1, d, [], e)), roots, Report(d, 1, p, [x], e));
  }

  lemma RootIs(r: Report)
    requires r.mac != r.parent && r.layer == 1
    ensures Root in FirstMesh(r).kids && FirstMesh(r).kids[Root] == [At(r.parent)]
  {
  }
}
