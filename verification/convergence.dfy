/** One round of true reports rebuilds the real mesh. */
module Convergence {
  import opened Addresses
  import opened Forest
  import opened Topology
  import opened Memory
  import opened Effects
  import opened Reports
  import opened Contract
  import opened Mending

  // The real mesh: each device's parent, and each device's layer.
  datatype Real = Real(up: map<Mac, Mac>, layer: map<Mac, nat>)

  // Devices right under a router, which is no device itself, are at layer 1.
  ghost predicate IsMesh(w: Real) {
    && w.layer.Keys == w.up.Keys
    && forall d :: d in w.up ==>
         w.layer[d] == if w.up[d] in w.up then w.layer[w.up[d]] + 1 else 1
  }

  ghost predicate Router(w: Real, a: Mac) {
    a !in w.up && exists d :: d in w.up && w.up[d] == a
  }

  // a is a real ancestor of d.
  ghost predicate Above(w: Real, a: Mac, d: Mac)
    requires IsMesh(w)
    decreases if d in w.up then w.layer[d] else 0
  {
    d in w.up && (w.up[d] == a || (w.up[d] in w.up && Above(w, a, w.up[d])))
  }

  function Depth(w: Real, a: Mac): nat {
    if a in w.layer then w.layer[a] else 0
  }

  lemma {:induction false} AboveDepth(w: Real, a: Mac, d: Mac)
    requires IsMesh(w) && Above(w, a, d)
    ensures d in w.up && Depth(w, a) < Depth(w, d)
    decreases Depth(w, d)
  {
    if w.up[d] != a {
      AboveDepth(w, a, w.up[d]);
    }
  }

  lemma {:induction false} AboveTrans(w: Real, a: Mac, b: Mac, d: Mac)
    requires IsMesh(w) && Above(w, a, b) && Above(w, b, d)
    ensures Above(w, a, d)
    decreases Depth(w, d)
  {
    AboveDepth(w, b, d);
    if w.up[d] == b {
      AboveDepth(w, a, b);
    } else {
      AboveTrans(w, a, b, w.up[d]);
    }
  }

  // Two real ancestors of one device lie one above the other.
  lemma {:induction false} AboveChain(w: Real, a: Mac, b: Mac, d: Mac)
    requires IsMesh(w) && Above(w, a, d) && Above(w, b, d)
    ensures a == b || Above(w, a, b) || Above(w, b, a)
    decreases Depth(w, d)
  {
    if w.up[d] != a && w.up[d] != b {
      AboveChain(w, a, b, w.up[d]);
    }
  }

  /* Trees and reports about the real mesh */

  // Devices right under a router
  predicate LayerOne(w: Real, d: Mac) {
    d in w.up && w.up[d] !in w.up
  }

  // A link from a real ancestor to a descendant; the root is above every router and device.
  ghost predicate Ancestral(w: Real, x: Id, y: Id)
    requires IsMesh(w)
  {
    y.At? && if x == Root then Router(w, y.addr) || y.addr in w.up else Above(w, x.addr, y.addr)
  }

  // Such a link, but none from the root to a layer-1 device
  ghost predicate OkLink(w: Real, x: Id, y: Id)
    requires IsMesh(w)
  {
    Ancestral(w, x, y) && (x == Root ==> !LayerOne(w, y.addr))
  }

  ghost predicate AllAncestral(w: Real, k: Kids)
    requires IsMesh(w)
  {
    forall x, y :: x in k && y in k[x] ==> Ancestral(w, x, y)
  }

  ghost predicate Consistent(w: Real, k: Kids)
    requires IsMesh(w)
  {
    forall x, y :: x in k && y in k[x] ==> OkLink(w, x, y)
  }

  ghost predicate Truthful(w: Real, r: Report)
    requires IsMesh(w)
  {
    && r.mac in w.up && r.layer == w.layer[r.mac] && r.parent == w.up[r.mac]
    && forall a :: a in r.table <==> Above(w, r.mac, a)
  }

  lemma {:induction false} ConsistentSteps(w: Real, k: Kids, n: nat, a: Mac, y: Id)
    requires IsMesh(w) && AllAncestral(w, k) && Steps(k, n, At(a), y)
    ensures y.At? && (y.addr == a || Above(w, a, y.addr))
  {
    if n > 0 {
      var o :| Steps(k, n - 1, At(a), o) && o in k && y in k[o];
      ConsistentSteps(w, k, n - 1, a, o);
      assert Ancestral(w, o, y);
      if o.addr != a { AboveTrans(w, a, o.addr, y.addr); }
    }
  }

  lemma ConsistentReach(w: Real, k: Kids, a: Mac, y: Id)
    requires IsMesh(w) && AllAncestral(w, k) && Reach(k, At(a), y)
    ensures y.At? && (y.addr == a || Above(w, a, y.addr))
  {
    var n: nat :| Steps(k, n, At(a), y);
    ConsistentSteps(w, k, n, a, y);
  }

  // What is below its real parent hangs directly under it.
  lemma DirectlyUnder(w: Real, k: Kids, d: Mac)
    requires IsMesh(w) && Closed(k) && Consistent(w, k) && d in w.up && Below(k, At(w.up[d]), At(d))
    ensures At(w.up[d]) in k && At(d) in k[At(w.up[d])]
  {
    var p := w.up[d];
    var c := TopLink(k, At(p), At(d));
    assert OkLink(w, At(p), c);
    AboveDepth(w, p, c.addr);
    ConsistentReach(w, k, c.addr, At(d));
    if c != At(d) {
      AboveDepth(w, c.addr, d);
      assert false;
    }
  }

  /* What holds after a parent-closed set of devices has reported */

  ghost predicate Placement(w: Real, s: Mesh, d: Mac)
    requires IsMesh(w) && d in w.up
  {
    var p := w.up[d];
    && At(p) in s.kids && At(d) in s.kids[At(p)] && LayerOf(s, d) == w.layer[d]
    && (p !in w.up ==> Root in s.kids && At(p) in s.kids[Root] && LayerOf(s, p) == 0)
  }

  ghost predicate Settled(w: Real, s: Mesh, done: set<Mac>)
    requires IsMesh(w)
  {
    forall d :: d in done ==> d in w.up && Placement(w, s, d) && (w.up[d] in w.up ==> w.up[d] in done)
  }

  ghost predicate Covers(w: Real, k: Kids, done: set<Mac>)
    requires IsMesh(w)
  {
    forall d, c :: d in done && Above(w, d, c) ==> Below(k, At(d), At(c))
  }

  // The device's parent has reported, if it is a device, and nothing below the device has.
  ghost predicate Next(w: Real, done: set<Mac>, r: Report)
    requires IsMesh(w)
  {
    && Truthful(w, r)
    && (w.up[r.mac] in w.up ==> w.up[r.mac] in done)
    && forall e :: e in done ==> !Above(w, r.mac, e)
  }

  ghost predicate Good(w: Real, s: Mesh, done: set<Mac>)
    requires IsMesh(w)
  {
    Sound(s) && Consistent(w, s.kids) && Settled(w, s, done) && Covers(w, s.kids, done)
  }

  lemma PlacedConsistent(w: Real, s: Mesh, r: Report)
    requires IsMesh(w) && AllAncestral(w, s.kids)
    ensures AllAncestral(w, Placed(s, r).kids)
  {
    forall x, y | x in Placed(s, r).kids && y in Placed(s, r).kids[x]
      ensures Ancestral(w, x, y)
    {
      PlacedLinks(s, r, x, y);
    }
  }

  lemma ConsistentAncestral(w: Real, k: Kids)
    requires IsMesh(w) && Consistent(w, k)
    ensures AllAncestral(w, k)
  {
    forall x, y | x in k && y in k[x]
      ensures Ancestral(w, x, y)
    {
      assert OkLink(w, x, y);
    }
  }

  // A true report never hangs a device below itself, and never lists what is above it.
  lemma TrueReportOrderly(w: Real, s: Mesh, r: Report)
    requires IsMesh(w) && Sound(s) && AllAncestral(w, s.kids) && Truthful(w, r)
    ensures Orderly(s, r)
  {
    hide Above, IsForest;
    var k, p, d := Placed(s, r).kids, r.parent, r.mac;
    PlacedSound(s, r);
    PlacedConsistent(w, s, r);
    AboveParent(w, d);
    AboveDepth(w, p, d);
    if Reach(k, At(d), At(p)) {
      ConsistentReach(w, k, d, At(p));
      AboveDepth(w, d, p);
    }
    forall a | a in r.table
      ensures !Reach(k, At(a), At(d)) && !Reach(k, At(a), At(p))
    {
      AboveDepth(w, d, a);
      if Reach(k, At(a), At(d)) {
        ConsistentReach(w, k, a, At(d));
        AboveDepth(w, a, d);
      }
      if Reach(k, At(a), At(p)) {
        ConsistentReach(w, k, a, At(p));
        if a != p { AboveDepth(w, a, p); }
      }
    }
  }

  // Whoever holds the reporting device is its real parent.
  lemma HolderIsParent(w: Real, s: Mesh, done: set<Mac>, r: Report, x: Id)
    requires IsMesh(w) && Good(w, s, done) && Next(w, done, r)
    requires x in s.kids && At(r.mac) in s.kids[x]
    ensures x == At(r.parent)
  {
    hide Above;
    var p := r.parent;
    assert OkLink(w, x, At(r.mac));
    ParentOrFarther(w, x, r.mac);
    if p in w.up {
      AboveParent(w, r.mac);
      assert Below(s.kids, At(p), At(r.mac));
      DirectlyUnder(w, s.kids, r.mac);
    }
  }

  lemma ParentOrFarther(w: Real, x: Id, d: Mac)
    requires IsMesh(w) && d in w.up && OkLink(w, x, At(d))
    ensures w.up[d] !in w.up ==> x == At(w.up[d])
  {
  }

  lemma AboveParent(w: Real, d: Mac)
    requires IsMesh(w) && d in w.up
    ensures Above(w, w.up[d], d)
  {
  }

  lemma TrueReportFits(w: Real, s: Mesh, done: set<Mac>, r: Report)
    requires IsMesh(w) && Good(w, s, done) && Next(w, done, r)
    ensures Fits(s, r)
  {
    hide Above, IsForest, Settled, Covers, TableFits, Placed, Reach;
    var k, p, d := Placed(s, r).kids, r.parent, r.mac;
    ConsistentAncestral(w, s.kids);
    TrueReportOrderly(w, s, r);
    PlacedSound(s, r);
    if Owned(k, At(d)) {
      var x := Owner(k, At(d));
      PlacedLinks(s, r, x, At(d));
      HolderIsParent(w, s, done, r, x);
    }
    if r.layer == 1 && Owned(k, At(p)) {
      var x := Owner(k, At(p));
      PlacedLinks(s, r, x, At(p));
      assert OkLink(w, x, At(p));
      if x != Root { AboveDepth(w, x.addr, p); }
    }
  }

  lemma FitsHandled(s: Mesh, r: Report)
    requires Fits(s, r)
    ensures Handled(s, r)
  {
    hide Placed, Reach, TailsOf, Grown, Pruned, Hung, CanHang, TableFits;
  }

  lemma FitsWhole(s: Mesh, r: Report)
    requires Fits(s, r)
    ensures TailsOf(s, r) == map[]
  {
    TailsNone(s, r);
  }

  lemma HungConsistent(w: Real, s: Mesh, done: set<Mac>, r: Report)
    requires IsMesh(w) && Good(w, s, done) && Next(w, done, r) && Fits(s, r)
    ensures Consistent(w, Hung(s, r).kids)
  {
    forall x, y | x in Hung(s, r).kids && y in Hung(s, r).kids[x]
      ensures OkLink(w, x, y)
    {
      HungLinks(s, r, x, y);
    }
  }

  // A true report prunes nothing, and spares every node.
  lemma NothingPruned(w: Real, s: Mesh, done: set<Mac>, r: Report, y: Id)
    requires IsMesh(w) && Good(w, s, done) && Next(w, done, r) && Fits(s, r)
    ensures Pruned(s, r).mesh == Hung(s, r) && Spared(Hung(s, r).kids, At(r.mac), r.table, y)
  {
    hide Above, IsForest, Good, Prune, Hung, Placeable, TableFits, Placed, Reach, Consistent;
    var h := Hung(s, r);
    HungConsistent(w, s, done, r);
    ConsistentAncestral(w, h.kids);
    HungSound(s, r);
    forall u | Below(h.kids, At(r.mac), u)
      ensures u.At? && u.addr in r.table
    {
      ConsistentReach(w, h.kids, r.mac, u);
    }
    PruneFlag(h, RankOf(h.kids), At(r.mac), r.table);
  }

  // It moves nothing above a node that is not really below the device.
  lemma NothingMoved(w: Real, s: Mesh, done: set<Mac>, r: Report, y: Id)
    requires IsMesh(w) && Good(w, s, done) && Next(w, done, r) && Fits(s, r)
    requires y.At? ==> !Above(w, r.mac, y.addr)
    ensures AllUnmoved(Hung(s, r).kids, At(r.mac), r.table, y)
  {
    hide Above, IsForest, Good, Prune, Hung, Placeable, TableFits, Placed, Reach, Consistent;
    var h := Hung(s, r);
    HungConsistent(w, s, done, r);
    ConsistentAncestral(w, h.kids);
    forall a | a in r.table
      ensures !Reach(h.kids, At(a), y)
    {
      if Reach(h.kids, At(a), y) {
        ConsistentReach(w, h.kids, a, y);
        if y.addr != a { AboveTrans(w, r.mac, a, y.addr); }
      }
    }
  }

  lemma TrueReportConsistent(w: Real, s: Mesh, roots: map<Mac, Endpoint>, done: set<Mac>, r: Report)
    requires IsMesh(w) && Good(w, s, done) && Next(w, done, r) && Fits(s, r)
    ensures Consistent(w, Update(s, roots, r).mesh.kids)
  {
    hide Update, Fits, Handled, Settled, Covers, Above, Sound;
    FitsHandled(s, r);
    AboveParent(w, r.mac);
    forall x, y | x in Update(s, roots, r).mesh.kids && y in Update(s, roots, r).mesh.kids[x]
      ensures OkLink(w, x, y)
    {
      ReportLinks(s, roots, r, x, y);
    }
  }

  // A true report keeps the links and layers of nodes not below the device.
  lemma KeepsOthers(w: Real, s: Mesh, roots: map<Mac, Endpoint>, done: set<Mac>, r: Report, o: Id, y: Id)
    requires IsMesh(w) && Good(w, s, done) && Next(w, done, r) && Fits(s, r)
    requires o in s.kids && y in s.kids[o] && (y.At? ==> !Above(w, r.mac, y.addr))
    ensures o in Hung(s, r).kids && y in Hung(s, r).kids[o]
    ensures Keeps(Hung(s, r), Update(s, roots, r).mesh, o, y)
  {
    hide Update, Placeable, TableFits, Hung, Good, Next, Spared, AllUnmoved, Keeps;
    FitsWhole(s, r);
    HungKeeps(s, r, o, y);
    NothingPruned(w, s, done, r, y);
    NothingMoved(w, s, done, r, y);
    ReportKeepsLink(s, roots, r, o, y);
  }

  // The layers update writes before it touches any list.
  lemma HungLayers(s: Mesh, r: Report, a: Mac)
    requires Fits(s, r) && At(a) in s.kids && a != r.mac && a != r.parent
    ensures LayerOf(Hung(s, r), a) == LayerOf(s, a)
  {
    hide IsForest, Reach, CutShort, CanHang;
    DeviceSound(s, r);
    var s1 := Placed(s, r);
    var h := HungDevice(s1, r);
    CutShortLayer(s1, At(r.parent), At(r.mac));
    CutShortLayer(h, Root, At(r.parent));
  }

  lemma KeptLayer(s: Mesh, s': Mesh, o: Id, a: Mac)
    requires Keeps(s, s', o, At(a))
    ensures o in s'.kids && At(a) in s'.kids[o] && LayerOf(s', a) == LayerOf(s, a)
  {
  }

  lemma PlacementKept(w: Real, s: Mesh, roots: map<Mac, Endpoint>, done: set<Mac>, r: Report, e: Mac)
    requires IsMesh(w) && Good(w, s, done) && Next(w, done, r) && Fits(s, r) && e in done && e in w.up && e != r.mac
    requires Placement(w, s, e)
    ensures Placement(w, Update(s, roots, r).mesh, e)
  {
    hide Update, Placeable, TableFits, Hung, Good, Above, Keeps, Sound;
    var s', q := Update(s, roots, r).mesh, w.up[e];
    assert !Above(w, r.mac, e);
    KeepsOthers(w, s, roots, done, r, At(q), At(e));
    KeptLayer(Hung(s, r), s', At(q), e);
    HungKnown(s, r);
    if e != r.parent { LinkKnown(w, s, done, At(q), At(e)); HungLayers(s, r, e); }
    if q !in w.up {
      NotAbove(w, r.mac, q);
      KeepsOthers(w, s, roots, done, r, Root, At(q));
      KeptLayer(Hung(s, r), s', Root, q);
      if q != r.parent { HungLayers(s, r, q); }
    }
  }

  lemma NotAbove(w: Real, a: Mac, q: Mac)
    requires IsMesh(w) && q !in w.up
    ensures !Above(w, a, q)
  {
  }

  lemma LinkKnown(w: Real, s: Mesh, done: set<Mac>, o: Id, y: Id)
    requires IsMesh(w) && Good(w, s, done) && o in s.kids && y in s.kids[o]
    ensures y in s.kids
  {
    LinkEnds(s, o, y);
  }

  lemma HungKnown(s: Mesh, r: Report)
    requires Fits(s, r)
    ensures LayerOf(Hung(s, r), r.mac) == r.layer && LayerOf(Hung(s, r), r.parent) == r.layer - 1
  {
    hide IsForest, Hung;
    HungSound(s, r);
  }

  lemma PlacementNew(w: Real, s: Mesh, roots: map<Mac, Endpoint>, done: set<Mac>, r: Report)
    requires IsMesh(w) && Next(w, done, r) && Fits(s, r)
    ensures r.mac in w.up && Placement(w, Update(s, roots, r).mesh, r.mac)
  {
    hide Update, Placeable, TableFits, Above, Below;
    FitsWhole(s, r);
    ReportContract(s, roots, r);
    RootKnown(Update(s, roots, r).mesh);
  }

  lemma RootKnown(s: Mesh)
    requires Sound(s)
    ensures Root in s.kids
  {
  }

  lemma TrueReportSettled(w: Real, s: Mesh, roots: map<Mac, Endpoint>, done: set<Mac>, r: Report)
    requires IsMesh(w) && Good(w, s, done) && Next(w, done, r) && Fits(s, r)
    ensures Settled(w, Update(s, roots, r).mesh, done + {r.mac})
  {
    hide Update, Fits, Above, Placement, Sound, Consistent, Covers;
    PlacementNew(w, s, roots, done, r);
    forall e | e in done && e != r.mac
      ensures Placement(w, Update(s, roots, r).mesh, e)
    {
      PlacementKept(w, s, roots, done, r, e);
    }
  }

  // Settled devices hang in one chain below each of their settled ancestors.
  lemma {:induction false} SettledChain(w: Real, s: Mesh, done: set<Mac>, e: Mac, d: Mac)
    requires IsMesh(w) && Settled(w, s, done) && d in done && Above(w, e, d)
    ensures Reach(s.kids, At(e), At(d))
    decreases Depth(w, d)
  {
    hide Reach;
    assert Placement(w, s, d);
    if w.up[d] == e {
      ReachLink(s.kids, At(e), At(d));
    } else {
      AboveDepth(w, w.up[d], d);
      SettledChain(w, s, done, e, w.up[d]);
      ReachStep(s.kids, At(e), At(w.up[d]), At(d));
    }
  }

  lemma CoversNew(w: Real, s: Mesh, roots: map<Mac, Endpoint>, done: set<Mac>, r: Report, e: Mac, c: Mac)
    requires IsMesh(w) && Good(w, s, done) && Next(w, done, r) && Fits(s, r)
    requires e in done + {r.mac} && Above(w, e, c)
    requires Settled(w, Update(s, roots, r).mesh, done + {r.mac})
    ensures Below(Update(s, roots, r).mesh.kids, At(e), At(c))
  {
    hide Update, Placeable, TableFits, Above, Placement, Sound, Settled, Hung, Reach, Consistent, Pruned,
         AllUnmoved, Spared;
    var s', d := Update(s, roots, r).mesh, r.mac;
    AboveDepth(w, e, c);
    ReportContract(s, roots, r);
    if e != d {
      if c == d {
        SettledChain(w, s', done + {d}, e, d);
      } else if Above(w, d, c) {
        AboveChain(w, e, d, c);
        SettledChain(w, s', done + {d}, e, d);
        ReachTrans(s'.kids, At(e), At(d), At(c));
      } else {
        assert Below(s.kids, At(e), At(c));
        NothingPruned(w, s, done, r, At(c));
        NothingMoved(w, s, done, r, At(c));
        HungReach(s, r, At(e), At(c));
        ReportKeepsReach(s, roots, r, At(e), At(c));
      }
    }
  }

  lemma ReportKeepsReach(s: Mesh, roots: map<Mac, Endpoint>, r: Report, x: Id, y: Id)
    requires Fits(s, r) && Reach(Hung(s, r).kids, x, y) && Pruned(s, r).mesh == Hung(s, r)
    requires Spared(Hung(s, r).kids, At(r.mac), r.table, y)
    requires AllUnmoved(Hung(s, r).kids, At(r.mac), r.table, y)
    ensures Reach(Update(s, roots, r).mesh.kids, x, y)
  {
    hide Placeable, TableFits, Hung, Pruned, Update, Spared, AllUnmoved;
    var n: nat :| Steps(Hung(s, r).kids, n, x, y);
    ReportKeepsSteps(s, roots, r, n, x, y);
  }

  lemma HungReach(s: Mesh, r: Report, x: Id, y: Id)
    requires Fits(s, r) && Reach(s.kids, x, y)
    ensures Reach(Hung(s, r).kids, x, y)
  {
    var n: nat :| Steps(s.kids, n, x, y);
    HungSteps(s, r, n, x, y);
  }

  lemma {:induction false} HungSteps(s: Mesh, r: Report, n: nat, x: Id, y: Id)
    requires Fits(s, r) && Steps(s.kids, n, x, y)
    ensures Reach(Hung(s, r).kids, x, y)
  {
    hide CanHang, Placed, TableFits, Hung, Reach, TailsOf, Sound, Update;
    if n == 0 {
      UpdateKnows(s, map[], r);
      ReachSelf(Hung(s, r).kids, x);
    } else {
      var o :| Steps(s.kids, n - 1, x, o) && o in s.kids && y in s.kids[o];
      HungSteps(s, r, n - 1, x, o);
      FitsWhole(s, r);
      HungKeeps(s, r, o, y);
      ReachStep(Hung(s, r).kids, x, o, y);
    }
  }

  // A true report that is next in order fits, and extends what is settled.
  lemma TrueReportStep(w: Real, s: Mesh, roots: map<Mac, Endpoint>, done: set<Mac>, r: Report)
    requires IsMesh(w) && Good(w, s, done) && Next(w, done, r)
    ensures Fits(s, r) && Good(w, Update(s, roots, r).mesh, done + {r.mac})
  {
    hide Update, Placeable, TableFits, Above, Placement, Sound, Settled, Hung, Below, Consistent;
    TrueReportFits(w, s, done, r);
    ReportContract(s, roots, r);
    TrueReportConsistent(w, s, roots, done, r);
    TrueReportSettled(w, s, roots, done, r);
    forall e, c | e in done + {r.mac} && Above(w, e, c)
      ensures Below(Update(s, roots, r).mesh.kids, At(e), At(c))
    {
      CoversNew(w, s, roots, done, r, e, c);
    }
  }

  /* One round */

  // Every device reports, and every report of its parent comes before.
  ghost predicate Round(w: Real, rs: seq<Report>)
    requires IsMesh(w)
  {
    && (forall i :: 0 <= i < |rs| ==> Truthful(w, rs[i]))
    && (forall d :: d in w.up ==> exists i :: 0 <= i < |rs| && rs[i].mac == d)
    && (forall i, j :: 0 <= i < |rs| && 0 <= j < |rs| && rs[j].mac == rs[i].parent ==> j < i)
  }

  function Heard(rs: seq<Report>): set<Mac> {
    set i | 0 <= i < |rs| :: rs[i].mac
  }

  // An ancestor's reports come before its descendants'.
  lemma {:induction false} AncestorsFirst(w: Real, rs: seq<Report>, i: nat, j: nat)
    requires IsMesh(w) && Round(w, rs) && i < |rs| && j < |rs| && Above(w, rs[j].mac, rs[i].mac)
    ensures j < i
    decreases Depth(w, rs[i].mac)
  {
    var p := w.up[rs[i].mac];
    if p != rs[j].mac {
      var m :| 0 <= m < |rs| && rs[m].mac == p;
      AboveDepth(w, p, rs[i].mac);
      AncestorsFirst(w, rs, m, j);
    }
  }

  lemma NextInRound(w: Real, rs: seq<Report>, i: nat)
    requires IsMesh(w) && Round(w, rs) && i < |rs|
    ensures Next(w, Heard(rs[..i]), rs[i])
  {
    assert Truthful(w, rs[i]);
    var p := w.up[rs[i].mac];
    if p in w.up {
      var j :| 0 <= j < |rs| && rs[j].mac == p;
      assert rs[..i][j].mac == p;
    }
    forall e | e in Heard(rs[..i])
      ensures !Above(w, rs[i].mac, e)
    {
      var j :| 0 <= j < i && rs[..i][j].mac == e;
      if Above(w, rs[i].mac, rs[j].mac) { AncestorsFirst(w, rs, j, i); }
    }
  }

  // The run of a round, report by report, as long as each update ends with a forest.
  ghost predicate RunsFrom(s: Mesh, roots: map<Mac, Endpoint>, rs: seq<Report>, s': Mesh, roots': map<Mac, Endpoint>)
    requires Sound(s)
    decreases |rs|
  {
    if rs == [] then s' == s && roots' == roots
    else
      var u := Update(s, roots, rs[0]);
      u.intact && RunsFrom(u.mesh, u.roots, rs[1..], s', roots')
  }

  lemma {:induction false} RoundRuns(w: Real, s: Mesh, roots: map<Mac, Endpoint>, rs: seq<Report>, i: nat)
    returns (s': Mesh, roots': map<Mac, Endpoint>)
    requires IsMesh(w) && Round(w, rs) && i <= |rs| && Sound(s) && Good(w, s, Heard(rs[..i]))
    ensures RunsFrom(s, roots, rs[i..], s', roots') && Good(w, s', Heard(rs))
    decreases |rs| - i
  {
    hide Good, Next, Placeable, Orderly, Update, Round;
    if i == |rs| {
      assert rs[..i] == rs;
      s', roots' := s, roots;
    } else {
      NextInRound(w, rs, i);
      TrueReportStep(w, s, roots, Heard(rs[..i]), rs[i]);
      HeardNext(rs, i);
      assert rs[i..][0] == rs[i] && rs[i..][1..] == rs[i + 1..];
      var u := Update(s, roots, rs[i]);
      s', roots' := RoundRuns(w, u.mesh, u.roots, rs, i + 1);
    }
  }

  lemma HeardNext(rs: seq<Report>, i: nat)
    requires i < |rs|
    ensures Heard(rs[..i + 1]) == Heard(rs[..i]) + {rs[i].mac}
  {
    var h, h' := Heard(rs[..i]), Heard(rs[..i + 1]);
    assert rs[..i + 1][i] == rs[i];
    forall a | a in h
      ensures a in h'
    {
      var j :| 0 <= j < i && rs[..i][j].mac == a;
      assert rs[..i + 1][j].mac == a;
    }
    forall a | a in h'
      ensures a in h + {rs[i].mac}
    {
      var j :| 0 <= j < i + 1 && rs[..i + 1][j].mac == a;
      assert j < i ==> rs[..i][j].mac == a;
    }
  }

  // The real link from x down to y
  ghost predicate RealLink(w: Real, x: Id, y: Id) {
    y.At? && if x == Root then Router(w, y.addr) else y.addr in w.up && w.up[y.addr] == x.addr
  }

  // Exactly the real links, and the real layers.
  ghost predicate IsReal(w: Real, s: Mesh) {
    && (forall x, y :: (x in s.kids && y in s.kids[x]) <==> RealLink(w, x, y))
    && (forall d :: d in w.up && d in w.layer ==> LayerOf(s, d) == w.layer[d])
    && (forall a :: Router(w, a) ==> LayerOf(s, a) == 0)
  }

  lemma SettledLink(w: Real, s: Mesh, x: Id, y: Id)
    requires IsMesh(w) && Good(w, s, w.up.Keys)
    ensures (x in s.kids && y in s.kids[x]) <==> RealLink(w, x, y)
  {
    hide Above, IsForest, Covers;
    ForestSingle(s);
    if x in s.kids && y in s.kids[x] {
      assert OkLink(w, x, y);
      if x != Root {
        NotRootAbove(w, x.addr, y.addr);
      }
      if y.addr in w.up {
        assert Placement(w, s, y.addr);
      }
    }
    if RealLink(w, x, y) && x != Root {
      assert Placement(w, s, y.addr);
    }
    if RealLink(w, x, y) && x == Root {
      var d :| d in w.up && w.up[d] == y.addr;
      assert Placement(w, s, d);
    }
  }

  lemma Converged(w: Real, s: Mesh)
    requires IsMesh(w) && Good(w, s, w.up.Keys)
    ensures IsReal(w, s)
  {
    hide Sound, Covers, Consistent;
    forall x, y
      ensures (x in s.kids && y in s.kids[x]) <==> RealLink(w, x, y)
    {
      SettledLink(w, s, x, y);
    }
    forall d | d in w.up
      ensures LayerOf(s, d) == w.layer[d]
    {
      assert Placement(w, s, d);
    }
    forall a | Router(w, a)
      ensures LayerOf(s, a) == 0
    {
      var d :| d in w.up && w.up[d] == a;
      assert Placement(w, s, d);
    }
  }

  lemma NotRootAbove(w: Real, a: Mac, d: Mac)
    requires IsMesh(w) && Above(w, a, d)
    ensures d in w.up
  {
  }

  lemma AllHeard(w: Real, rs: seq<Report>)
    requires IsMesh(w) && Round(w, rs)
    ensures Heard(rs) == w.up.Keys
  {
    forall d | d in w.up
      ensures d in Heard(rs)
    {
      var i :| 0 <= i < |rs| && rs[i].mac == d;
    }
    assert forall i :: 0 <= i < |rs| ==> Truthful(w, rs[i]);
  }

  // From any sound tree whose links agree with the real ancestry, with none from the root to a layer-1
  // device, one round of true reports, each parent's before its children's, runs through and leaves exactly
  // the real links and layers.
  lemma RoundConverges(w: Real, s: Mesh, roots: map<Mac, Endpoint>, rs: seq<Report>)
    returns (s': Mesh, roots': map<Mac, Endpoint>)
    requires IsMesh(w) && Round(w, rs) && Sound(s) && Consistent(w, s.kids)
    ensures RunsFrom(s, roots, rs, s', roots') && IsReal(w, s')
  {
    hide Sound, Consistent, Round, RunsFrom, IsReal;
    assert rs[..0] == [] && rs[0..] == rs;
    assert Good(w, s, Heard([]));
    s', roots' := RoundRuns(w, s, roots, rs, 0);
    AllHeard(w, rs);
    Converged(w, s');
  }

  /* The condition on the root's links is exact */

  lemma TrueReportAncestral(w: Real, s: Mesh, roots: map<Mac, Endpoint>, r: Report)
    requires IsMesh(w) && Sound(s) && AllAncestral(w, s.kids) && Truthful(w, r) && Handled(s, r)
    ensures AllAncestral(w, Update(s, roots, r).mesh.kids)
  {
    hide Update, Handled, Sound, Above;
    AboveParent(w, r.mac);
    forall x, y | x in Update(s, roots, r).mesh.kids && y in Update(s, roots, r).mesh.kids[x]
      ensures Ancestral(w, x, y)
    {
      ReportLinks(s, roots, r, x, y);
    }
  }

  // The own true report of a device that hangs right under the root is followed to the end of its update, and
  // the root's list is then still torn: behind its members it goes on with the device.
  lemma RootLinkEnds(w: Real, s: Mesh, roots: map<Mac, Endpoint>, r: Report)
    requires IsMesh(w) && Sound(s) && AllAncestral(w, s.kids) && Truthful(w, r) && At(r.mac) in s.kids[Root]
    ensures Orderly(s, r) && !Update(s, roots, r).intact
    ensures var t := Mended(Update(s, roots, r).mesh.kids, TailsOf(s, r));
            Root in t && t[Root] != [] && t[Root][0] == At(r.mac)
  {
    hide IsForest, TableFits, Placed, Reach, Hung, TailsOf, AllAncestral, Truthful, Update;
    TrueReportOrderly(w, s, r);
    RootKnown(s);
    RootTails(s, r);
    RootLeft(s, roots, r);
  }

  lemma {:induction false} AddBelowKeepsRootLink(s: Mesh, d: Id, table: seq<Mac>, c: Mac)
    requires Sound(s) && d in s.kids && At(c) in s.kids[Root] && c !in table
    ensures Root in AddBelow(s, d, table).mesh.kids && At(c) in AddBelow(s, d, table).mesh.kids[Root]
    decreases |table|
  {
    hide IsForest, HangsSafely, Rehang, Below;
    RootKnown(s);
    if table != [] && HangsSafely(s.kids, d, table[0]) {
      RehangSafe(s, d, table[0]);
      RehangKeepsRootLink(s, d, table[0], c);
      AddBelowKeepsRootLink(Rehang(s, d, table[0]), d, table[1..], c);
    }
  }

  lemma RehangKeepsRootLink(s: Mesh, d: Id, a: Mac, c: Mac)
    requires Sound(s) && d in s.kids && Root in s.kids && At(c) in s.kids[Root] && a != c
    ensures Root in Rehang(s, d, a).kids && At(c) in Rehang(s, d, a).kids[Root]
  {
    hide IsForest, Cut, Reach, Keeps;
    if !Below(s.kids, d, At(a)) {
      var s1 := Known(s, a);
      KnownForest(s, a);
      OnlyUnderRoot(s1, a, c);
      CutKeeps(s1, At(a), Root, At(c));
      KeepsLink(s1, Cut(s1, At(a)), Root, At(c));
    }
  }

  // No other device's true report takes it away from there.
  lemma RootLinkStays(w: Real, s: Mesh, roots: map<Mac, Endpoint>, r: Report, d: Mac)
    requires IsMesh(w) && Orderly(s, r) && Root !in TailsOf(s, r) && Truthful(w, r) && r.mac != d
    requires LayerOne(w, d) && At(d) in s.kids[Root]
    ensures Root in Update(s, roots, r).mesh.kids && At(d) in Update(s, roots, r).mesh.kids[Root]
  {
    hide Prune, AddBelow, TableFits, IsForest, Hung, Keeps, Reach, TailsOf, Placed, Pruned, Update;
    RootKnown(s);
    HungKeeps(s, r, Root, At(d));
    UpdateMesh(s, roots, r);
    var h, e := Hung(s, r), At(r.mac);
    OnlyUnderRoot(h, r.mac, d);
    PruneIs(h, RankOf(h.kids), e, r.table);
    PruneKeepsLink(h, RankOf(h.kids), e, 0, r.table, Root, At(d));
    KeepsLink(h, Pruned(s, r).mesh, Root, At(d));
    NotListed(w, r, d);
    AddBelowKeepsRootLink(Pruned(s, r).mesh, e, r.table, d);
  }

  lemma NotListed(w: Real, r: Report, d: Mac)
    requires IsMesh(w) && Truthful(w, r) && LayerOne(w, d)
    ensures d !in r.table
  {
  }

  lemma OnlyUnderRoot(s: Mesh, e: Mac, d: Mac)
    requires Sound(s) && At(d) in s.kids[Root] && e != d
    ensures forall x: Mac :: Reach(s.kids, At(x), At(d)) ==> x == d
    ensures forall u :: Below(s.kids, At(e), u) ==> !Reach(s.kids, u, At(d))
  {
    forall x: Mac | Reach(s.kids, At(x), At(d))
      ensures x == d
    {
      if x != d {
        ForestSingle(s);
        ReachOwner(s.kids, At(x), Root, At(d));
        UnownedOnlySelf(s.kids, At(x), Root);
      }
    }
    forall u | Below(s.kids, At(e), u)
      ensures !Reach(s.kids, u, At(d))
    {
      if Reach(s.kids, u, At(d)) {
        ReachTrans(s.kids, At(e), u, At(d));
      }
    }
  }

  // Some device is met in the root's list: a child, or the first node behind the children.
  ghost predicate RootMeets(w: Real, k: Kids, t: Tails) {
    && Root in k
    && (|| (exists d :: d in w.up && At(d) in k[Root])
        || (Root in t && t[Root] != [] && exists d :: d in w.up && t[Root][0] == At(d)))
  }

  // A round that begins with a layer-1 device right under the root comes to a report of which update leaves no
  // forest, and when that update ends the root still lists a device.
  lemma {:induction false} RoundStops(w: Real, s: Mesh, roots: map<Mac, Endpoint>, rs: seq<Report>, d: Mac)
    returns (i: nat, s': Mesh, roots': map<Mac, Endpoint>)
    requires IsMesh(w) && Sound(s) && AllAncestral(w, s.kids) && LayerOne(w, d) && At(d) in s.kids[Root]
    requires (forall r :: r in rs ==> Truthful(w, r)) && exists r :: r in rs && r.mac == d
    ensures i < |rs| && RunsFrom(s, roots, rs[..i], s', roots') && Sound(s') && Orderly(s', rs[i])
    ensures var u := Update(s', roots', rs[i]);
            !u.intact && RootMeets(w, u.mesh.kids, Mended(u.mesh.kids, TailsOf(s', rs[i])))
    decreases |rs|
  {
    hide Truthful, Update, Sound, AllAncestral, Orderly, Handled, LayerOne, TailsOf, Mended, RootMeets, IsMesh,
         RunsFrom;
    assert rs != [] && rs[0] in rs;
    var u := Update(s, roots, rs[0]);
    TrueReportOrderly(w, s, rs[0]);
    if u.intact {
      RootGoesOn(w, s, roots, rs[0], d);
      RestHas(rs, d);
      i, s', roots' := RoundStops(w, u.mesh, u.roots, rs[1..], d);
      i := i + 1;
      RunsNext(s, roots, rs, i, s', roots');
    } else {
      i, s', roots' := 0, s, roots;
      RunsNone(s, roots, rs);
      StopMeets(w, s, roots, rs[0], d);
    }
  }

  lemma RunsNext(s: Mesh, roots: map<Mac, Endpoint>, rs: seq<Report>, i: nat, s': Mesh, roots': map<Mac, Endpoint>)
    requires Sound(s) && 0 < i <= |rs| && Update(s, roots, rs[0]).intact
    requires var u := Update(s, roots, rs[0]); RunsFrom(u.mesh, u.roots, rs[1..][..i - 1], s', roots')
    ensures RunsFrom(s, roots, rs[..i], s', roots') && (i < |rs| ==> rs[i] == rs[1..][i - 1])
  {
    hide Update, Sound;
    FirstOf(rs, i);
  }

  lemma FirstOf(rs: seq<Report>, i: nat)
    requires 0 < i <= |rs|
    ensures rs[..i] != [] && rs[..i][1..] == rs[1..][..i - 1] && rs[..i][0] == rs[0]
  {
  }

  lemma RunsNone(s: Mesh, roots: map<Mac, Endpoint>, rs: seq<Report>)
    requires Sound(s)
    ensures RunsFrom(s, roots, rs[..0], s, roots)
  {
  }

  lemma RestHas(rs: seq<Report>, d: Mac)
    requires rs != [] && rs[0].mac != d && exists r :: r in rs && r.mac == d
    ensures exists r :: r in rs[1..] && r.mac == d
    ensures forall r :: r in rs[1..] ==> r in rs
  {
    var r :| r in rs && r.mac == d;
    assert rs == [rs[0]] + rs[1..];
    assert r in rs[1..];
  }

  lemma RootGoesOn(w: Real, s: Mesh, roots: map<Mac, Endpoint>, r: Report, d: Mac)
    requires IsMesh(w) && Sound(s) && AllAncestral(w, s.kids) && Truthful(w, r) && Orderly(s, r)
    requires LayerOne(w, d) && At(d) in s.kids[Root] && Update(s, roots, r).intact
    ensures r.mac != d
    ensures var k := Update(s, roots, r).mesh.kids; AllAncestral(w, k) && Root in k && At(d) in k[Root]
  {
    hide Truthful, Update, Sound, AllAncestral, Orderly, Handled, LayerOne, TailsOf, IsMesh;
    IntactRoot(s, roots, r);
    NotOwnReport(w, s, roots, r, d);
    RootLinkStays(w, s, roots, r, d);
    TrueReportAncestral(w, s, roots, r);
  }

  lemma NotOwnReport(w: Real, s: Mesh, roots: map<Mac, Endpoint>, r: Report, d: Mac)
    requires IsMesh(w) && Sound(s) && AllAncestral(w, s.kids) && Truthful(w, r) && At(d) in s.kids[Root]
    requires Update(s, roots, r).intact
    ensures r.mac != d
  {
    hide Truthful, Update, Sound, AllAncestral;
    if r.mac == d { RootLinkEnds(w, s, roots, r); }
  }

  lemma StopMeets(w: Real, s: Mesh, roots: map<Mac, Endpoint>, r: Report, d: Mac)
    requires IsMesh(w) && Sound(s) && AllAncestral(w, s.kids) && Truthful(w, r) && Orderly(s, r)
    requires LayerOne(w, d) && At(d) in s.kids[Root]
    ensures var u := Update(s, roots, r); RootMeets(w, u.mesh.kids, Mended(u.mesh.kids, TailsOf(s, r)))
  {
    hide Update, Sound, AllAncestral, Placed, Reach, TableFits, Hung, TailsOf, Mended;
    var u := Update(s, roots, r);
    RootKnown(s);
    RootKnown(u.mesh);
    assert r.mac in w.up && d in w.up;
    if At(r.mac) in s.kids[Root] {
      RootLinkEnds(w, s, roots, r);
    } else {
      NoRootTail(s, r);
      RootLinkStays(w, s, roots, r, d);
    }
  }

  // From a sound tree whose links run from real ancestors to descendants, one round of true reports runs
  // through, a forest at the end of each update, and leaves the real mesh exactly when no layer-1 device hangs
  // right under the root.
  lemma RoundExact(w: Real, s: Mesh, roots: map<Mac, Endpoint>, rs: seq<Report>)
    requires IsMesh(w) && Round(w, rs) && Sound(s) && AllAncestral(w, s.kids)
    ensures (exists s', roots' :: RunsFrom(s, roots, rs, s', roots') && IsReal(w, s')) <==>
            forall d :: At(d) in s.kids[Root] ==> !LayerOne(w, d)
  {
    hide IsForest, IsReal, RunsFrom, Ancestral, Router;
    RootKnown(s);
    if d :| At(d) in s.kids[Root] && LayerOne(w, d) {
      forall s', roots' | RunsFrom(s, roots, rs, s', roots')
        ensures false
      {
        var n :| 0 <= n < |rs| && rs[n].mac == d;
        assert rs[n] in rs;
        var i, s1, roots1 := RoundStops(w, s, roots, rs, d);
        RunBroken(s, roots, rs, s', roots', i, s1, roots1);
      }
    } else {
      RootHolds(w, s);
      var s', roots' := RoundConverges(w, s, roots, rs);
    }
  }

  lemma {:induction false} RunBroken(s: Mesh, roots: map<Mac, Endpoint>, rs: seq<Report>, s': Mesh,
                                     roots': map<Mac, Endpoint>, i: nat, s1: Mesh, roots1: map<Mac, Endpoint>)
    requires Sound(s) && Sound(s1) && i < |rs|
    requires RunsFrom(s, roots, rs[..i], s1, roots1) && !Update(s1, roots1, rs[i]).intact
    ensures !RunsFrom(s, roots, rs, s', roots')
    decreases |rs|
  {
    hide Update, Sound;
    var u := Update(s, roots, rs[0]);
    if i > 0 && u.intact {
      FirstOf(rs, i);
      RunBroken(u.mesh, u.roots, rs[1..], s', roots', i - 1, s1, roots1);
    }
  }

  lemma RootHolds(w: Real, s: Mesh)
    requires IsMesh(w) && Root in s.kids && AllAncestral(w, s.kids)
    requires forall d :: At(d) in s.kids[Root] ==> !LayerOne(w, d)
    ensures Consistent(w, s.kids)
  {
    hide LayerOne, Above, Router;
    forall x, y | x in s.kids && y in s.kids[x]
      ensures OkLink(w, x, y)
    {
      assert Ancestral(w, x, y);
      assert y == At(y.addr);
    }
  }
}
