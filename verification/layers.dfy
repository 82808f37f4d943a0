/** The layers and endpoints of the devices a route report lists. */
module Layers {
  import opened Addresses
  import opened Forest
  import opened Topology
  import opened Memory
  import opened Effects
  import opened Reports
  import opened Contract
  import opened RootDevices

  // One that is moved ends one layer below the device; the device's own layer stays.
  lemma RehangLayer(s: Mesh, d: Id, a: Mac)
    requires Sound(s) && d in s.kids && !Reach(s.kids, At(a), d)
    ensures var s' := Rehang(s, d, a);
            && d in s.layer && d in s'.layer && s'.layer[d] == s.layer[d]
            && (!Below(s.kids, d, At(a)) ==> At(a) in s'.layer && s'.layer[At(a)] == s.layer[d] + 1)
  {
    hide Reach, Cut, IsForest;
    RehangKeepsLayer(s, d, a, d);
    if At(a) == d { ReachSelf(s.kids, d); }
    if !Below(s.kids, d, At(a)) { RehangReady(s, d, a); }
  }

  // What is below the device when the listed addresses are re-hung keeps its layer.
  lemma BelowStays(s: Mesh, d: Id, table: seq<Mac>, y: Id)
    requires Sound(s) && d in s.kids && NoneAbove(s.kids, d, table) && Below(s.kids, d, y)
    ensures SameLayer(s, AddBelow(s, d, table).mesh, y)
  {
    hide IsForest, AddBelow, Reach, SameLayer;
    ForestSingle(s);
    BelowReach(s.kids, d, y);
    forall a | a in table
      ensures Unmoved(s.kids, d, a, y)
    {
      if !Below(s.kids, d, At(a)) { MovedApart(s.kids, d, a, y); }
    }
    AddBelowKeepsLayer(s, d, table, y);
  }

  lemma BelowReach(k: Kids, d: Id, y: Id)
    requires Below(k, d, y) && Closed(k)
    ensures Reach(k, d, y) && y in k
  {
    ReachEnds(k, d, y);
  }

  // The layer of a listed address, by where it is when its turn comes
  lemma {:induction false} ListedLayer(s: Mesh, d: Id, before: seq<Mac>, a: Mac, after: seq<Mac>)
    requires Sound(s) && d in s.kids && NoneAbove(s.kids, d, before + [a] + after)
    ensures var q, u := AddBelow(s, d, before).mesh, AddBelow(s, d, before + [a] + after).mesh;
            && d in s.layer && At(a) in u.layer
            && if Below(q.kids, d, At(a)) then SameLayer(q, u, At(a)) else u.layer[At(a)] == s.layer[d] + 1
    decreases |before|
  {
    hide IsForest, Rehang, Below, NoneAbove, Reach;
    var table := before + [a] + after;
    RehangRest(s, d, table);
    RehangLayer(s, d, table[0]);
    if before == [] {
      assert table == [a] + after && table[1..] == after;
      if Below(s.kids, d, At(a)) {
        BelowStays(s, d, table, At(a));
      } else {
        BelowStays(Rehang(s, d, a), d, after, At(a));
      }
    } else {
      assert table[1..] == before[1..] + [a] + after;
      StillSafe(s, d, before);
      ListedLayer(Rehang(s, d, before[0]), d, before[1..], a, after);
    }
  }

  lemma StillSafe(s: Mesh, d: Id, table: seq<Mac>)
    requires Sound(s) && d in s.kids && table != [] && !Reach(s.kids, At(table[0]), d)
    requires Sound(Rehang(s, d, table[0])) && d in Rehang(s, d, table[0]).kids
    ensures AddBelow(s, d, table).mesh == AddBelow(Rehang(s, d, table[0]), d, table[1..]).mesh
  {
    hide IsForest, Rehang, Below, Reach;
  }

  // After an orderly report each listed address has the layer below the device's if it was not yet below the device
  // when its turn came; else it keeps its own.
  lemma ReportLayers(s: Mesh, roots: map<Mac, Endpoint>, r: Report, before: seq<Mac>, a: Mac, after: seq<Mac>)
    requires Orderly(s, r) && r.table == before + [a] + after
    ensures var q, u := AddBelow(Pruned(s, r).mesh, At(r.mac), before).mesh, Update(s, roots, r).mesh;
            && At(a) in u.layer
            && LayerOf(u, a) == if Below(q.kids, At(r.mac), At(a)) then LayerOf(q, a) else r.layer + 1
  {
    hide IsForest, Pruned, AddBelow, Below, Reach, Placed, Reports.Update, Hung, TailsOf, Joins, TableFits, Prune;
    UpdateMesh(s, roots, r);
    ReportContract(s, roots, r);
    var p, d := Pruned(s, r).mesh, At(r.mac);
    ListedLayer(p, d, before, a, after);
    AboveUnmoved(p.kids, d, r.table, d);
    AddBelowKeepsLayer(p, d, r.table, d);
  }

  // So a root device that another device reports below itself, and that was not there, is a root device no more.
  lemma ListedNoRoot(s: Mesh, roots: map<Mac, Endpoint>, r: Report, before: seq<Mac>, a: Mac, after: seq<Mac>)
    requires Orderly(s, r) && r.layer != 0 && r.table == before + [a] + after
    requires !Below(AddBelow(Pruned(s, r).mesh, At(r.mac), before).mesh.kids, At(r.mac), At(a))
    ensures a !in Update(s, roots, r).roots
  {
    hide IsForest, Pruned, AddBelow, Below, Reach, Placed, Reports.Update, Hung, TailsOf, Joins, TableFits, Prune,
         Enrolled;
    ReportLayers(s, roots, r, before, a, after);
    EndpointsExact(s, roots, r);
    ReportContract(s, roots, r);
    ListedApart(s, roots, r, a);
  }

  // A listed address is neither end of an orderly report.
  lemma ListedApart(s: Mesh, roots: map<Mac, Endpoint>, r: Report, a: Mac)
    requires Orderly(s, r) && a in r.table
    ensures a != r.mac && a != r.parent
  {
    hide IsForest, Pruned, AddBelow, Placed, Reports.Update, Hung, TailsOf, Joins, TableFits, Prune, Reach;
    UpdateMesh(s, roots, r);
    PrunedAbove(s, r);
    var k := Pruned(s, r).mesh.kids;
    ReachSelf(k, At(r.mac));
    ParentKept(s, r);
    ReachSelf(k, At(r.parent));
  }

  lemma ParentKept(s: Mesh, r: Report)
    requires Orderly(s, r)
    ensures At(r.parent) in Pruned(s, r).mesh.kids
  {
    hide IsForest, Hung, Placed, Prune, Joins, TableFits, Reach, TailsOf;
    HungSound(s, r);
  }
}
