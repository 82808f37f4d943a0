/** What one route report guarantees. */
module Contract {
  import opened Addresses
  import opened Forest
  import opened Topology
  import opened Memory
  import opened Effects
  import opened Reports

  /* add_descendent */

  ghost predicate AllUnmoved(k: Kids, d: Id, table: seq<Mac>, y: Id) {
    forall a :: a in table ==> Unmoved(k, d, a, y)
  }

  lemma RehangRest(s: Mesh, d: Id, table: seq<Mac>)
    requires Sound(s) && d in s.kids && table != [] && NoneAbove(s.kids, d, table)
    ensures Sound(Rehang(s, d, table[0])) && d in Rehang(s, d, table[0]).kids
    ensures !Reach(s.kids, At(table[0]), d) && NoneAbove(Rehang(s, d, table[0]).kids, d, table[1..])
    ensures Below(Rehang(s, d, table[0]).kids, d, At(table[0]))
  {
    RehangSound(s, d, table[0]);
    assert forall b :: b in table[1..] ==> b in table;
  }

  lemma UnmovedRest(s: Mesh, d: Id, table: seq<Mac>, y: Id)
    requires Sound(s) && d in s.kids && table != [] && NoneAbove(s.kids, d, table)
    requires y in s.kids && AllUnmoved(s.kids, d, table, y)
    ensures AllUnmoved(Rehang(s, d, table[0]).kids, d, table[1..], y)
  {
    hide Unmoved, IsForest, Rehang;
    assert table[0] in table;
    forall b | b in table[1..]
      ensures Unmoved(Rehang(s, d, table[0]).kids, d, b, y)
    {
      assert b in table;
      UnmovedKept(s, d, table[0], b, y);
    }
  }

  // Re-hanging keeps every link into a node that nothing moved leads to.
  lemma {:induction false} AddBelowKeepsLink(s: Mesh, d: Id, table: seq<Mac>, o: Id, y: Id)
    requires Sound(s) && d in s.kids && NoneAbove(s.kids, d, table)
    requires o in s.kids && y in s.kids[o] && AllUnmoved(s.kids, d, table, y)
    ensures Keeps(s, AddBelow(s, d, table).mesh, o, y)
    decreases |table|
  {
    hide IsForest, Keeps, Rehang, Unmoved, NoneAbove;
    LinkEnds(s, o, y);
    if table == [] {
      KeepsSelf(s, o, y);
    } else {
      var s' := Rehang(s, d, table[0]);
      RehangRest(s, d, table);
      UnmovedRest(s, d, table, y);
      assert table[0] in table;
      RehangKeepsLink(s, d, table[0], o, y);
      KeepsLink(s, s', o, y);
      AddBelowKeepsLink(s', d, table[1..], o, y);
      KeepsTrans(s, s', AddBelow(s', d, table[1..]).mesh, o, y);
    }
  }

  lemma {:induction false} AddBelowKeepsLayer(s: Mesh, d: Id, table: seq<Mac>, y: Id)
    requires Sound(s) && d in s.kids && NoneAbove(s.kids, d, table)
    requires y in s.kids && AllUnmoved(s.kids, d, table, y)
    ensures SameLayer(s, AddBelow(s, d, table).mesh, y)
    decreases |table|
  {
    hide IsForest, Rehang, Unmoved, NoneAbove;
    if table != [] {
      RehangRest(s, d, table);
      UnmovedRest(s, d, table, y);
      assert table[0] in table;
      RehangKeepsLayer(s, d, table[0], y);
      AddBelowKeepsLayer(Rehang(s, d, table[0]), d, table[1..], y);
    }
  }

  lemma {:induction false} AddBelowKeepsBelow(s: Mesh, d: Id, table: seq<Mac>, y: Id)
    requires Sound(s) && d in s.kids && NoneAbove(s.kids, d, table) && Below(s.kids, d, y)
    ensures Below(AddBelow(s, d, table).mesh.kids, d, y)
    decreases |table|
  {
    hide IsForest, Rehang, NoneAbove, Below;
    if table != [] {
      RehangRest(s, d, table);
      RehangKeepsBelow(s, d, table[0], y);
      AddBelowKeepsBelow(Rehang(s, d, table[0]), d, table[1..], y);
    }
  }

  // Afterwards every listed address is below the device.
  lemma {:induction false} AllBelow(s: Mesh, d: Id, table: seq<Mac>)
    requires Sound(s) && d in s.kids && NoneAbove(s.kids, d, table)
    ensures forall a :: a in table ==> Below(AddBelow(s, d, table).mesh.kids, d, At(a))
    decreases |table|
  {
    hide IsForest, Rehang, NoneAbove, Below;
    if table != [] {
      RehangRest(s, d, table);
      AddBelowKeepsBelow(Rehang(s, d, table[0]), d, table[1..], At(table[0]));
      AllBelow(Rehang(s, d, table[0]), d, table[1..]);
      assert table == [table[0]] + table[1..];
    }
  }

  // A change is reported exactly when some listed address was not yet below the device.
  lemma {:induction false} AddBelowFlag(s: Mesh, d: Id, table: seq<Mac>)
    requires Sound(s) && d in s.kids && NoneAbove(s.kids, d, table)
    ensures AddBelow(s, d, table).change <==> exists a :: a in table && !Below(s.kids, d, At(a))
    ensures !AddBelow(s, d, table).change ==> AddBelow(s, d, table).mesh == s
    decreases |table|
  {
    hide IsForest, NoneAbove, Below;
    if table != [] {
      RehangRest(s, d, table);
      assert table == [table[0]] + table[1..];
      if Below(s.kids, d, At(table[0])) {
        AddBelowFlag(s, d, table[1..]);
      }
    }
  }

  // What add_child finds when an address not yet below d is to be hung there
  lemma RehangReady(s: Mesh, d: Id, a: Mac)
    requires Sound(s) && d in s.kids && !Below(s.kids, d, At(a))
    ensures var s2 := Cut(Known(s, a), At(a));
            && d in s2.kids && d in s2.layer && At(a) !in s2.kids[d]
            && (CanHang(s2.kids, d, At(a)) <==> HangsSafely(s.kids, d, a))
            && Rehang(s, d, a) == Hang(s2, d, At(a))
  {
    hide Acyclic, Single, Cut, Reach;
    var s1 := Known(s, a);
    var s2 := Cut(s1, At(a));
    KnownForest(s, a);
    CutSound(s1, At(a));
    if !Reach(s.kids, At(a), d) {
      if Reach(s2.kids, At(a), d) {
        FewerReach(s2.kids, s1.kids, At(a), d);
        if At(a) in s.kids { KnownReach(s, a, At(a), d); } else { ChildlessReach(s1.kids, At(a), d); }
      }
    } else {
      ReachKnown(s, At(a), d);
      if At(a) == d {
        ReachSelf(s2.kids, d);
      } else if Owned(s.kids, At(a)) {
        CutAncestor(s, d, At(a));
      } else {
        CutNone(s, At(a));
      }
    }
  }

  lemma CutNone(s: Mesh, c: Id)
    requires !Owned(s.kids, c)
    ensures Cut(s, c) == s
  {
  }

  /* remove_descendent */

  ghost predicate Unlisted(k: Kids, x: Id, table: seq<Mac>, u: Id) {
    Below(k, x, u) && !(u.At? && u.addr in table)
  }

  ghost predicate HasUnlisted(k: Kids, x: Id, table: seq<Mac>) {
    exists u :: Unlisted(k, x, table, u)
  }

  // A change is reported exactly when some node below is unlisted; otherwise nothing is touched.
  lemma PruneFlag(s: Mesh, r: map<Id, nat>, x: Id, table: seq<Mac>)
    requires Sound(s) && Ranked(s.kids, r) && x in s.kids
    ensures Prune(s, r, x, table).change <==> HasUnlisted(s.kids, x, table)
    ensures !Prune(s, r, x, table).change ==> Prune(s, r, x, table).mesh == s
  {
    hide IsForest, Fewer, SameAbove, PruneFrom;
    PruneFromFlag(s, r, x, 0, table);
    ListFlag(s.kids, x, table);
  }

  lemma ListFlag(k: Kids, x: Id, table: seq<Mac>)
    requires IsForest(k) && x in k
    ensures HasUnlisted(k, x, table) <==> exists j: nat :: j < |k[x]| && UnlistedAt(k, x, table, j)
  {
    assert Closed(k);
    if u :| Unlisted(k, x, table, u) {
      var c := TopLink(k, x, u);
      var j :| 0 <= j < |k[x]| && k[x][j] == c;
      assert UnlistedAt(k, x, table, j);
    }
    if j: nat :| j < |k[x]| && UnlistedAt(k, x, table, j) {
      var u :| Reach(k, k[x][j], u) && !(u.At? && u.addr in table);
      assert k[x][j] in k[x];
      ReachVia(k, x, k[x][j], u);
      LinkNoBack(k, x, k[x][j]);
      assert Unlisted(k, x, table, u);
    }
  }

  // The j-th member of x's list is unlisted or has something unlisted below it.
  ghost predicate UnlistedAt(k: Kids, x: Id, table: seq<Mac>, j: nat)
    requires x in k && j < |k[x]|
  {
    exists u :: Reach(k, k[x][j], u) && !(u.At? && u.addr in table)
  }

  lemma {:induction false} PruneFromFlag(s: Mesh, r: map<Id, nat>, x: Id, i: nat, table: seq<Mac>)
    requires Sound(s) && Ranked(s.kids, r) && x in s.kids && i <= |s.kids[x]|
    ensures PruneFrom(s, r, x, i, table).change <==>
            exists j: nat :: i <= j < |s.kids[x]| && UnlistedAt(s.kids, x, table, j)
    ensures !PruneFrom(s, r, x, i, table).change ==> PruneFrom(s, r, x, i, table).mesh == s
    decreases r[x], 0, |s.kids[x]| - i
  {
    hide IsForest, Fewer, SameAbove, DropChild;
    if i < |s.kids[x]| {
      var c := s.kids[x][i];
      assert c in s.kids[x];
      PrunedInside(s, r, x, c, table);
      PruneFromFlag(s, r, c, 0, table);
      MemberFlag(s, r, x, i, table);
      if c.addr in table && !Prune(s, r, c, table).change {
        PruneFromFlag(s, r, x, i + 1, table);
      }
    }
  }

  lemma MemberFlag(s: Mesh, r: map<Id, nat>, x: Id, i: nat, table: seq<Mac>)
    requires Sound(s) && Ranked(s.kids, r) && x in s.kids && i < |s.kids[x]|
    ensures var c := s.kids[x][i];
            && c in s.kids && c != Root
            && (UnlistedAt(s.kids, x, table, i) <==>
                 c.addr !in table || exists j: nat :: j < |s.kids[c]| && UnlistedAt(s.kids, c, table, j))
  {
    var k, c := s.kids, s.kids[x][i];
    assert c in k[x];
    LinkEnds(s, x, c);
    ReachSelf(k, c);
    ListFlag(k, c, table);
    if u :| Reach(k, c, u) && !(u.At? && u.addr in table) {
      assert u != c ==> Unlisted(k, c, table, u);
    }
    if u :| Unlisted(k, c, table, u) {
      assert Reach(k, c, u);
    }
  }

  // The first member with an unlisted address, and only it, leaves the list.
  function TrimFirst(l: seq<Id>, table: seq<Mac>): seq<Id> {
    if l == [] then []
    else if l[0].At? && l[0].addr in table then [l[0]] + TrimFirst(l[1..], table)
    else l[1..]
  }

  lemma TrimStep(l: seq<Id>, i: nat, table: seq<Mac>)
    requires i < |l|
    ensures l[..i] + TrimFirst(l[i..], table) ==
            if l[i].At? && l[i].addr in table then l[..i + 1] + TrimFirst(l[i + 1..], table) else Skip(l, i)
  {
    assert l[i..][1..] == l[i + 1..];
    assert l[..i + 1] == l[..i] + [l[i]];
  }

  lemma {:induction false} PruneOwnList(s: Mesh, r: map<Id, nat>, x: Id, i: nat, table: seq<Mac>)
    requires Sound(s) && Ranked(s.kids, r) && x in s.kids && i <= |s.kids[x]|
    ensures x in PruneFrom(s, r, x, i, table).mesh.kids
    ensures PruneFrom(s, r, x, i, table).mesh.kids[x] == s.kids[x][..i] + TrimFirst(s.kids[x][i..], table)
    decreases |s.kids[x]| - i
  {
    hide IsForest, Fewer, SameAbove, DropChild, TrimFirst, Skip;
    var l := s.kids[x];
    if i == |l| {
      TrimNone(l, table);
    } else {
      var c := l[i];
      assert c in l;
      var inner := Prune(s, r, c, table).mesh;
      PrunedInside(s, r, x, c, table);
      LinkRank(s, r, x, c);
      TrimStep(l, i, table);
      if c.addr in table {
        PruneOwnList(inner, r, x, i + 1, table);
      } else {
        DropChildOwner(inner, x, c);
        ForestDistinct(inner, x);
        IndexUnique(l, i);
        FewerKeys(DropChild(inner, x, c), inner, x, c);
      }
    }
  }

  lemma TrimNone(l: seq<Id>, table: seq<Mac>)
    ensures l[..|l|] + TrimFirst(l[|l|..], table) == l
  {
  }

  lemma FewerKeys(s': Mesh, s: Mesh, x: Id, c: Id)
    requires Sound(s) && x in s.kids && s' == DropChild(s, x, c)
    ensures x in s'.kids
  {
    DropChildSound(s, x, c);
  }

  lemma ForestDistinct(s: Mesh, x: Id)
    requires Sound(s) && x in s.kids
    ensures Distinct(s.kids[x])
  {
  }

  /* One report */

  lemma NothingAbove(k: Kids, d: Id, p: Id, table: seq<Mac>)
    requires IsForest(k) && p in k && d in k[p]
    ensures Spared(k, d, table, d) && Spared(k, d, table, p)
  {
    ReachLink(k, p, d);
    forall u | Below(k, d, u)
      ensures !Reach(k, u, d) && !Reach(k, u, p)
    {
      if Reach(k, u, d) { NoCycle(k, d, u); }
      if Reach(k, u, p) { ReachTrans(k, u, p, d); NoCycle(k, d, u); }
    }
  }

  lemma AboveUnmoved(k: Kids, d: Id, table: seq<Mac>, y: Id)
    requires NoneAbove(k, y, table)
    ensures AllUnmoved(k, d, table, y)
  {
  }

  // The forest update leaves: pruned below the device, then the listed addresses re-hung there
  lemma UpdateMesh(s: Mesh, roots: map<Mac, Endpoint>, r: Report)
    requires Orderly(s, r)
    ensures var h, d, t := Hung(s, r), At(r.mac), Pruned(s, r);
            && Sound(h) && d in h.kids && Sound(t.mesh) && d in t.mesh.kids && NoneAbove(t.mesh.kids, d, r.table)
            && t == Prune(h, RankOf(h.kids), d, r.table)
            && Sound(s) && Update(s, roots, r).mesh == AddBelow(t.mesh, d, r.table).mesh
  {
    hide IsForest, Hung, Prune, AddBelow, Placed, TailsOf, Reach, TableFits;
    HungSound(s, r);
  }

  lemma ReportKeepsLink(s: Mesh, roots: map<Mac, Endpoint>, r: Report, o: Id, y: Id)
    requires Orderly(s, r) && o in Hung(s, r).kids && y in Hung(s, r).kids[o]
    requires Spared(Hung(s, r).kids, At(r.mac), r.table, y)
    requires AllUnmoved(Pruned(s, r).mesh.kids, At(r.mac), r.table, y)
    ensures Keeps(Hung(s, r), Update(s, roots, r).mesh, o, y)
  {
    hide IsForest, Keeps, Spared, AllUnmoved, Hung, Joins, TableFits, Prune, AddBelow, Pruned, Reports.Update,
         NoneAbove;
    var h, d := Hung(s, r), At(r.mac);
    UpdateMesh(s, roots, r);
    PruneKeepsLink(h, RankOf(h.kids), d, 0, r.table, o, y);
    PruneIs(h, RankOf(h.kids), d, r.table);
    KeepsLink(h, Pruned(s, r).mesh, o, y);
    AddBelowKeepsLink(Pruned(s, r).mesh, d, r.table, o, y);
    KeepsTrans(h, Pruned(s, r).mesh, Update(s, roots, r).mesh, o, y);
  }

  lemma PruneIs(s: Mesh, r: map<Id, nat>, x: Id, table: seq<Mac>)
    requires Sound(s) && Ranked(s.kids, r) && x in s.kids
    ensures Prune(s, r, x, table) == PruneFrom(s, r, x, 0, table)
  {
  }

  // After an orderly report the device is under its parent, a router under the root, with the layers
  // reported, and every listed address is below the device; unless the root had to lose the device to the
  // router.
  lemma ReportContract(s: Mesh, roots: map<Mac, Endpoint>, r: Report)
    requires Orderly(s, r)
    ensures var s' := Update(s, roots, r).mesh;
            && Sound(s')
            && (forall a :: a in r.table ==> Below(s'.kids, At(r.mac), At(a)))
            && At(r.parent) in s'.kids && At(r.mac) in s'.kids[At(r.parent)]
            && LayerOf(s', r.mac) == r.layer && LayerOf(s', r.parent) == r.layer - 1
            && (r.layer == 1 && Root !in TailsOf(s, r) ==> At(r.parent) in s'.kids[Root])
  {
    hide IsForest, Prune, AddBelow, Joins, TableFits, Below, Hung, TailsOf, Placed, Reports.Update;
    var h, p, d := Hung(s, r), At(r.parent), At(r.mac);
    HungSound(s, r);
    PlaceDevice(s, roots, r);
    ParentLayer(s, roots, r);
    AllBelow(Pruned(s, r).mesh, d, r.table);
    if r.layer == 1 && Root !in TailsOf(s, r) {
      PlaceRouter(s, roots, r);
    }
  }

  lemma PlaceDevice(s: Mesh, roots: map<Mac, Endpoint>, r: Report)
    requires Orderly(s, r)
    ensures At(r.parent) in Hung(s, r).kids && At(r.mac) in Hung(s, r).kids[At(r.parent)]
    ensures Keeps(Hung(s, r), Update(s, roots, r).mesh, At(r.parent), At(r.mac))
  {
    hide Prune, AddBelow, Joins, TableFits, Below, Reports.Update, Hung, Pruned, Keeps;
    var h, p, d := Hung(s, r), At(r.parent), At(r.mac);
    HungSound(s, r);
    NothingAbove(h.kids, d, p, r.table);
    AboveUnmoved(Pruned(s, r).mesh.kids, d, r.table, d);
    ReportKeepsLink(s, roots, r, p, d);
  }

  lemma ParentLayer(s: Mesh, roots: map<Mac, Endpoint>, r: Report)
    requires Orderly(s, r)
    ensures LayerOf(Update(s, roots, r).mesh, r.parent) == r.layer - 1
  {
    hide IsForest, Prune, AddBelow, Joins, TableFits, Hung, Spared, Reports.Update, Placed, TailsOf;
    var h, p, d := Hung(s, r), At(r.parent), At(r.mac);
    HungSound(s, r);
    NothingAbove(h.kids, d, p, r.table);
    PruneIs(h, RankOf(h.kids), d, r.table);
    PruneKeepsLayer(h, RankOf(h.kids), d, 0, r.table, p);
    PrunedAbove(s, r);
    AboveUnmoved(Pruned(s, r).mesh.kids, d, r.table, p);
    AddBelowKeepsLayer(Pruned(s, r).mesh, d, r.table, p);
  }

  lemma PlaceRouter(s: Mesh, roots: map<Mac, Endpoint>, r: Report)
    requires Orderly(s, r) && r.layer == 1 && Root !in TailsOf(s, r)
    ensures Root in Hung(s, r).kids && At(r.parent) in Hung(s, r).kids[Root]
    ensures Keeps(Hung(s, r), Update(s, roots, r).mesh, Root, At(r.parent))
  {
    hide Prune, AddBelow, Joins, TableFits, Below, Reports.Update, Hung, Pruned, Keeps, TailsOf;
    var h, p, d := Hung(s, r), At(r.parent), At(r.mac);
    HungSound(s, r);
    NothingAbove(h.kids, d, p, r.table);
    PrunedAbove(s, r);
    AboveUnmoved(Pruned(s, r).mesh.kids, d, r.table, p);
    ReportKeepsLink(s, roots, r, Root, p);
  }

  lemma PrunedAbove(s: Mesh, r: Report)
    requires Orderly(s, r)
    ensures NoneAbove(Pruned(s, r).mesh.kids, At(r.parent), r.table)
  {
    hide IsForest, Hung, Prune, Joins, TableFits, Reach, TailsOf, Placed;
    HungSound(s, r);
    FewerAbove(Pruned(s, r).mesh.kids, Hung(s, r).kids, At(r.parent), r.table);
  }

  // A list that is not torn keeps its members.
  lemma HungKeeps(s: Mesh, r: Report, o: Id, y: Id)
    requires Joins(s, r) && o !in TailsOf(s, r) && o in s.kids && y in s.kids[o]
    ensures o in Hung(s, r).kids && y in Hung(s, r).kids[o]
  {
    hide Sound, Reach, Follow, FollowTails, Owned, Owner, CutShort;
    var s1, p, d := Placed(s, r), At(r.parent), At(r.mac);
    DeviceSound(s, r);
    var h, t := HungDevice(s1, r), DeviceTails(s1, r);
    assert o in s1.kids && y in s1.kids[o];
    TakeKeeps(s1, map[], p, d, o, y);
    if o !in t {
      FollowKeeps(h, p, d, o, y);
      TakeKeeps(h, t, Root, p, o, y);
    } else {
      TailsStay(h, t, r, o);
    }
  }

  lemma TakeKeeps(s: Mesh, t: Tails, p: Id, c: Id, o: Id, y: Id)
    requires p in s.kids && p in s.layer && o in s.kids && y in s.kids[o]
    ensures o in t ==> o in TakeTails(t, s.kids, p, c)
    ensures o !in TakeTails(t, s.kids, p, c) ==> o in Take(s, p, c).kids && y in Take(s, p, c).kids[o]
  {
  }

  lemma TailsStay(h: Mesh, t: Tails, r: Report, o: Id)
    requires Root in h.kids && o in t && (Follows(h.kids, t, r) ==> t.Keys <= {Root})
    ensures o in RouterTails(h, t, r)
  {
  }

  lemma FollowKeeps(s: Mesh, p: Id, d: Id, o: Id, y: Id)
    requires Root in s.layer && o in s.kids && y in s.kids[o]
    ensures o !in FollowTails(s.kids, p, d) ==> o in Follow(s, p).kids && y in Follow(s, p).kids[o]
  {
  }

  // When the change flag is down, whatever the report, every write left a forest, no node was created and
  // no link changed.
  lemma QuietReport(s: Mesh, roots: map<Mac, Endpoint>, r: Report)
    requires Sound(s) && !Update(s, roots, r).change
    ensures Placeable(s, r) && Update(s, roots, r).intact && Update(s, roots, r).mesh.kids == s.kids
  {
    hide IsForest, Prune, AddBelow, Placeable, TableFits, Hung, TailsOf, Placed;
    var h, d := Hung(s, r), At(r.mac);
    HungSound(s, r);
    TailsNone(s, r);
    PruneFlag(h, RankOf(h.kids), d, r.table);
    AddBelowQuiet(Pruned(s, r).mesh, d, r.table);
    QuietHang(s, r);
  }

  lemma {:induction false} AddBelowQuiet(s: Mesh, d: Id, table: seq<Mac>)
    requires Sound(s) && d in s.kids && !AddBelow(s, d, table).change
    ensures AddBelow(s, d, table).intact && AddBelow(s, d, table).mesh == s
    decreases |table|
  {
    hide IsForest, Below;
    if table != [] {
      AddBelowQuiet(s, d, table[1..]);
    }
  }

  lemma QuietHang(s: Mesh, r: Report)
    requires Joins(s, r) && Hung(s, r).kids == Placed(s, r).kids
    ensures Placed(s, r).kids == s.kids
  {
    NewHasNoKids(s, r);
    HungSound(s, r);
  }

  lemma NewHasNoKids(s: Mesh, r: Report)
    requires Sound(s) && r.mac != r.parent
    ensures At(r.parent) in Placed(s, r).kids && At(r.mac) in Placed(s, r).kids
    ensures At(r.parent) !in s.kids ==> Placed(s, r).kids[At(r.parent)] == []
    ensures At(r.mac) !in s.kids ==> !Owned(Placed(s, r).kids, At(r.mac))
    ensures At(r.parent) in s.kids && At(r.mac) in s.kids ==> Placed(s, r).kids == s.kids
  {
  }

  /* Endpoints */

  ghost predicate RootsKnown(s: Mesh, roots: map<Mac, Endpoint>) {
    forall a :: a in roots ==> At(a) in s.kids
  }

  ghost predicate RootsAtLayerOne(s: Mesh, roots: map<Mac, Endpoint>) {
    forall a :: a in roots ==> At(a) in s.layer && s.layer[At(a)] == 1
  }

  lemma ReportRoots(s: Mesh, roots: map<Mac, Endpoint>, r: Report)
    requires Handled(s, r) && RootsKnown(s, roots)
    ensures RootsAtLayerOne(Update(s, roots, r).mesh, Update(s, roots, r).roots)
    ensures RootsKnown(Update(s, roots, r).mesh, Update(s, roots, r).roots)
  {
    hide IsForest, Prune, AddBelow, TableFits, Hung, Placed, Fixed, Managed, RootsAtLayerOne, TailsOf, Reach;
    HungSound(s, r);
    KnownGrows(s, r);
    ManagedKnown(Grown(s, r).mesh, roots, r, !Strays(Pruned(s, r).mesh, At(r.mac), r.table));
  }

  lemma ManagedKnown(s: Mesh, roots: map<Mac, Endpoint>, r: Report, held: bool)
    requires RootsKnown(s, roots) && At(r.mac) in s.kids && At(r.parent) in s.kids && s.kids.Keys == s.layer.Keys
    ensures var e := Fixed(s, Managed(s, roots, r, held)); RootsKnown(s, e) && RootsAtLayerOne(s, e)
  {
  }

  lemma KnownGrows(s: Mesh, r: Report)
    ensures s.kids.Keys <= Placed(s, r).kids.Keys
  {
  }

  /* Links a report can add, and ways down it cannot break */

  lemma {:induction false} AddBelowLinks(s: Mesh, d: Id, table: seq<Mac>, x: Id, y: Id)
    requires Sound(s) && d in s.kids
    requires x in AddBelow(s, d, table).mesh.kids && y in AddBelow(s, d, table).mesh.kids[x]
    ensures (x in s.kids && y in s.kids[x]) || (x == d && y.At? && y.addr in table)
    decreases |table|
  {
    hide IsForest, HangsSafely, Below, Rehang;
    if table != [] && HangsSafely(s.kids, d, table[0]) {
      RehangSafe(s, d, table[0]);
      AddBelowLinks(Rehang(s, d, table[0]), d, table[1..], x, y);
      assert table == [table[0]] + table[1..];
      if x in Rehang(s, d, table[0]).kids && y in Rehang(s, d, table[0]).kids[x] {
        RehangLinks(s, d, table[0], x, y);
      }
    }
  }

  lemma RehangLinks(s: Mesh, d: Id, a: Mac, x: Id, y: Id)
    requires Sound(s) && d in s.kids && x in Rehang(s, d, a).kids && y in Rehang(s, d, a).kids[x]
    ensures (x in s.kids && y in s.kids[x]) || (x == d && y == At(a))
  {
    hide IsForest, Cut, Below;
    KnownForest(s, a);
    CutSound(Known(s, a), At(a));
  }

  lemma ReportLinks(s: Mesh, roots: map<Mac, Endpoint>, r: Report, x: Id, y: Id)
    requires Handled(s, r)
    requires x in Update(s, roots, r).mesh.kids && y in Update(s, roots, r).mesh.kids[x]
    ensures || (x in s.kids && y in s.kids[x])
            || (x == At(r.parent) && y == At(r.mac))
            || (r.layer == 1 && x == Root && y == At(r.parent))
            || (x == At(r.mac) && y.At? && y.addr in r.table)
  {
    hide IsForest, Prune, AddBelow, Below, Hung, TableFits, TailsOf, Placed, Reach;
    var o := Pruned(s, r).mesh;
    AddBelowLinks(o, At(r.mac), r.table, x, y);
    if x in o.kids && y in o.kids[x] {
      HungLinks(s, r, x, y);
    }
  }

  lemma HungLinks(s: Mesh, r: Report, x: Id, y: Id)
    requires Joins(s, r) && x in Hung(s, r).kids && y in Hung(s, r).kids[x]
    ensures || (x in s.kids && y in s.kids[x])
            || (x == At(r.parent) && y == At(r.mac))
            || (r.layer == 1 && x == Root && y == At(r.parent))
  {
    hide IsForest, Placed, Take, CutShort, Reach;
    DeviceSound(s, r);
    HungSound(s, r);
    var s1 := Placed(s, r);
    var h := HungDevice(s1, r);
    CutShortSound(h, Root, At(r.parent));
    if r.layer == 1 && !Follows(h.kids, DeviceTails(s1, r), r) {
      TakeLinks(h, Root, At(r.parent), x, y);
    }
    if x in h.kids && y in h.kids[x] { TakeLinks(s1, At(r.parent), At(r.mac), x, y); }
    if x in s1.kids && y in s1.kids[x] { PlacedLinks(s, r, x, y); }
  }

  lemma TakeLinks(s: Mesh, p: Id, c: Id, x: Id, y: Id)
    requires p in s.kids && p in s.layer && x in Take(s, p, c).kids && y in Take(s, p, c).kids[x]
    ensures x in s.kids && (y in s.kids[x] || (x == p && y == c))
  {
  }

  lemma PlacedLinks(s: Mesh, r: Report, x: Id, y: Id)
    requires x in Placed(s, r).kids && y in Placed(s, r).kids[x]
    ensures x in s.kids && y in s.kids[x]
  {
  }

  lemma UpwardSpared(k: Kids, d: Id, table: seq<Mac>, o: Id, y: Id)
    requires o in k && y in k[o] && Spared(k, d, table, y)
    ensures Spared(k, d, table, o)
  {
    forall u | Below(k, d, u) && Reach(k, u, o)
      ensures u.At? && u.addr in table
    {
      ReachStep(k, u, o, y);
    }
  }

  lemma UpwardUnmoved(k: Kids, d: Id, table: seq<Mac>, o: Id, y: Id)
    requires o in k && y in k[o] && AllUnmoved(k, d, table, y)
    ensures AllUnmoved(k, d, table, o)
  {
    forall a | a in table
      ensures Unmoved(k, d, a, o)
    {
      assert Unmoved(k, d, a, y);
      if Reach(k, At(a), o) { ReachStep(k, At(a), o, y); }
    }
  }

  lemma {:induction false} ReportKeepsSteps(s: Mesh, roots: map<Mac, Endpoint>, r: Report, n: nat, x: Id, y: Id)
    requires Orderly(s, r) && Steps(Hung(s, r).kids, n, x, y) && Pruned(s, r).mesh == Hung(s, r)
    requires Spared(Hung(s, r).kids, At(r.mac), r.table, y)
    requires AllUnmoved(Hung(s, r).kids, At(r.mac), r.table, y)
    ensures Reach(Update(s, roots, r).mesh.kids, x, y)
  {
    hide Sound, Placed, TableFits, Hung, Reports.Update, Keeps, Spared, AllUnmoved, Reach, Pruned;
    var h := Hung(s, r);
    if n == 0 {
      UpdateKnows(s, roots, r);
      ReachSelf(Update(s, roots, r).mesh.kids, x);
    } else {
      var o :| Steps(h.kids, n - 1, x, o) && o in h.kids && y in h.kids[o];
      UpwardSpared(h.kids, At(r.mac), r.table, o, y);
      UpwardUnmoved(h.kids, At(r.mac), r.table, o, y);
      ReportKeepsSteps(s, roots, r, n - 1, x, o);
      ReportKeepsLink(s, roots, r, o, y);
      KeepsLink(h, Update(s, roots, r).mesh, o, y);
      ReachStep(Update(s, roots, r).mesh.kids, x, o, y);
    }
  }

  lemma UpdateKnows(s: Mesh, roots: map<Mac, Endpoint>, r: Report)
    requires Orderly(s, r)
    ensures Hung(s, r).kids.Keys <= Update(s, roots, r).mesh.kids.Keys
    ensures s.kids.Keys <= Hung(s, r).kids.Keys
  {
    hide IsForest, Prune, AddBelow, Joins, TableFits, Hung, Placed, Reports.Update;
    HungSound(s, r);
    KnownGrows(s, r);
  }
}
