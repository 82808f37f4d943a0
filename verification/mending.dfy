/** A device or router that a report takes out of another node's list: what update then leaves. */
module Mending {
  import opened Addresses
  import opened Forest
  import opened Topology
  import opened Memory
  import opened Effects
  import opened Reports
  import opened Contract
  import opened Breaking
  import opened Cutting
  import Pruning

  /* What the end of the table leaves of a list that is not below the device */

  lemma RehangList(s: Mesh, d: Id, a: Mac, o: Id, c: Id)
    requires Sound(s) && d in s.kids && o in s.kids && !Reach(s.kids, At(a), d)
    requires !Reach(s.kids, d, o) && !Reach(s.kids, At(a), o)
    ensures o in Rehang(s, d, a).kids
    ensures c in Rehang(s, d, a).kids[o] <==> c in s.kids[o] && c != At(a)
  {
    hide Acyclic, Reach, Cut, Without;
    ReachSelf(s.kids, d);
    if Below(s.kids, d, At(a)) {
      if At(a) in s.kids[o] { ReachOwner(s.kids, d, o, At(a)); }
    } else {
      var s1 := Known(s, a);
      KnownForest(s, a);
      if Reach(s1.kids, At(a), o) { KnownBack(s, a, s1.kids, At(a), o); }
      CutRest(s1, At(a), o);
      WithoutIs(s1.kids[o], At(a));
    }
  }

  ghost predicate NotAbove(k: Kids, table: seq<Mac>, o: Id) {
    forall a :: a in table ==> !Reach(k, At(a), o)
  }

  lemma RehangNotAbove(s: Mesh, d: Id, table: seq<Mac>, o: Id)
    requires Sound(s) && d in s.kids && table != [] && o in s.kids && !Reach(s.kids, At(table[0]), d)
    requires !Reach(s.kids, d, o) && NotAbove(s.kids, table, o)
    ensures !Reach(Rehang(s, d, table[0]).kids, d, o) && NotAbove(Rehang(s, d, table[0]).kids, table[1..], o)
  {
    hide Rehang, Sound, Reach;
    var a := table[0];
    forall x | Reach(Rehang(s, d, a).kids, x, o)
      ensures Reach(s.kids, x, o)
    {
      assert a in table;
      if !Below(s.kids, d, At(a)) { RehangReach(s, d, a, x, o); } else { RehangSame(s, d, a); }
    }
    assert forall b :: b in table[1..] ==> b in table;
  }

  lemma RehangSame(s: Mesh, d: Id, a: Mac)
    requires Sound(s) && d in s.kids && Below(s.kids, d, At(a))
    ensures Rehang(s, d, a) == s
  {
  }

  // Exactly its listed members leave a list that is not below the device.
  lemma {:induction false} AddBelowList(s: Mesh, d: Id, table: seq<Mac>, o: Id, c: Id)
    requires Sound(s) && d in s.kids && NoneAbove(s.kids, d, table) && o in s.kids
    requires !Reach(s.kids, d, o) && NotAbove(s.kids, table, o)
    ensures o in AddBelow(s, d, table).mesh.kids
    ensures c in AddBelow(s, d, table).mesh.kids[o] <==> c in s.kids[o] && !Pruning.Listed(c, table)
    decreases |table|
  {
    hide Rehang, IsForest, NoneAbove, Reach, NotAbove, Below;
    if table != [] {
      var s' := Rehang(s, d, table[0]);
      RehangRest(s, d, table);
      RehangNotAbove(s, d, table, o);
      ListedNotAbove(s.kids, table, o);
      RehangList(s, d, table[0], o, c);
      AddBelowList(s', d, table[1..], o, c);
      assert table == [table[0]] + table[1..];
    }
  }

  lemma ListedNotAbove(k: Kids, table: seq<Mac>, o: Id)
    requires table != [] && NotAbove(k, table, o)
    ensures !Reach(k, At(table[0]), o)
  {
    assert table[0] in table;
  }

  // What an orderly report leaves of a torn list
  lemma TornList(s: Mesh, roots: map<Mac, Endpoint>, r: Report, o: Id, c: Id)
    requires Orderly(s, r) && o in TailsOf(s, r)
    ensures o in Hung(s, r).kids && o in Update(s, roots, r).mesh.kids
    ensures c in Update(s, roots, r).mesh.kids[o] <==> c in Hung(s, r).kids[o] && !Pruning.Listed(c, r.table)
  {
    hide IsForest, Hung, TailsOf, Prune, AddBelow, Reach, Placed, Reports.Update, TableFits, Pruned, Pruning.Listed,
         Untorn, UntornBelow, NoneAbove, NotAbove;
    UpdateMesh(s, roots, r);
    var h, d, t := Hung(s, r), At(r.mac), Pruned(s, r).mesh;
    TailEnds(s, r, o);
    TailsApart(s, r);
    PruneApart(h, TailsOf(s, r), d, r.table, o);
    StillApart(t.kids, h.kids, TailsOf(s, r), d, r.table, o);
    AddBelowList(t, d, r.table, o, c);
  }

  // Pruning below the device changes no torn list.
  lemma PruneApart(h: Mesh, t: Tails, d: Id, table: seq<Mac>, o: Id)
    requires Sound(h) && d in h.kids && o in t && o in h.kids && UntornBelow(h.kids, t, d)
    ensures var s := Prune(h, RankOf(h.kids), d, table).mesh;
            Fewer(s.kids, h.kids) && o in s.kids && s.kids[o] == h.kids[o]
  {
    hide Acyclic, Single, Pruning.Outside, PruneFrom, SameAbove;
    TornOutside(h.kids, t, d, o);
    Pruning.PruneOutside(h, RankOf(h.kids), d, 0, table, o);
    PruneIs(h, RankOf(h.kids), d, table);
  }

  lemma TornOutside(k: Kids, t: Tails, d: Id, o: Id)
    requires Closed(k) && d in k && o in t && UntornBelow(k, t, d)
    ensures Pruning.Outside(k, d, 0, o)
  {
    ReachSelf(k, d);
    forall j | 0 <= j < |k[d]|
      ensures !Reach(k, k[d][j], o)
    {
      assert k[d][j] in k[d];
      if Reach(k, k[d][j], o) { ReachVia(k, d, k[d][j], o); }
    }
  }

  lemma StillApart(k': Kids, k: Kids, t: Tails, d: Id, table: seq<Mac>, o: Id)
    requires Fewer(k', k) && o in t && UntornBelow(k, t, d) && forall a :: a in table ==> Untorn(k, t, At(a))
    ensures !Reach(k', d, o) && NotAbove(k', table, o)
  {
    hide Reach, Fewer;
    if Reach(k', d, o) { FewerReach(k', k, d, o); }
    forall a | a in table
      ensures !Reach(k', At(a), o)
    {
      assert Untorn(k, t, At(a));
      if Reach(k', At(a), o) { FewerReach(k', k, At(a), o); }
    }
  }

  /* In terms of the lists before the report */

  // One of the two add_child calls takes c out of o's list.
  ghost predicate Taken(k: Kids, r: Report, o: Id, c: Id) {
    && o in k && c in k[o]
    && ((c == At(r.mac) && o != At(r.parent)) || (r.layer == 1 && c == At(r.parent) && o != Root))
  }

  // The j-th member stands before every one that is taken.
  ghost predicate Before(k: Kids, r: Report, o: Id, j: nat)
    requires o in k
  {
    j < |k[o]| && forall i :: 0 <= i <= j ==> !Taken(k, r, o, k[o][i])
  }

  ghost predicate BeforeListed(k: Kids, r: Report, o: Id)
    requires o in k
  {
    forall j: nat :: Before(k, r, o, j) ==> Pruning.Listed(k[o][j], r.table)
  }

  // Every list that loses a member is another node's than the root's, and all before that member are listed.
  ghost predicate Mends(k: Kids, r: Report) {
    forall o, c :: Taken(k, r, o, c) ==> o != Root && BeforeListed(k, r, o)
  }

  // A list but the parent's own ends before the child that is taken from it.
  lemma TakeList(s: Mesh, p: Id, c: Id, o: Id)
    requires Single(s.kids) && p in s.kids && p in s.layer && o in s.kids && o != p
    ensures o in Take(s, p, c).kids
    ensures Take(s, p, c).kids[o] == if c in s.kids[o] then s.kids[o][..Index(s.kids[o], c)] else s.kids[o]
    ensures c in s.kids[o] ==> o in TakeTails(map[], s.kids, p, c)
  {
  }

  lemma TakenApart(s: Mesh, r: Report, o: Id, c: Id)
    requires Sound(s) && Taken(s.kids, r, o, c)
    ensures o != At(r.parent)
  {
    LinkNoBack(s.kids, o, c);
  }

  lemma TakenIn(k: Kids, r: Report, o: Id, c: Id)
    requires Taken(k, r, o, c)
    ensures o in k && c in k[o]
  {
  }

  // Every list that loses a member is torn.
  lemma TakenTorn(s: Mesh, r: Report, o: Id, c: Id)
    requires Joins(s, r) && Taken(Placed(s, r).kids, r, o, c)
    ensures o in TailsOf(s, r)
  {
    hide IsForest, Placed, Reach, Take, TakeTails, Follow, CutShort;
    var s1, d, p := Placed(s, r), At(r.mac), At(r.parent);
    DeviceSound(s, r);
    SoundSingle(s1);
    TakenApart(s1, r, o, c);
    TakeList(s1, p, d, o);
    var h, t := HungDevice(s1, r), DeviceTails(s1, r);
    if o in t {
      DeviceOnly(s1, p, d);
      TailsStay(h, t, r, o);
    } else {
      UnderRoot(h, p);
      SoundSingle(h);
      TakeList(h, Root, p, o);
      MoreTails(t, h.kids, Root, p, o);
      FollowHas(h.kids, p, d, o);
    }
  }

  lemma DeviceOnly(s: Mesh, p: Id, d: Id)
    ensures Root in TakeTails(map[], s.kids, p, d) ==> TakeTails(map[], s.kids, p, d).Keys <= {Root}
  {
  }

  lemma MoreTails(t: Tails, k: Kids, p: Id, c: Id, o: Id)
    ensures o in TakeTails(map[], k, p, c) ==> o in TakeTails(t, k, p, c)
    ensures o in TakeTails(t, k, p, c) ==> o in t || o in TakeTails(map[], k, p, c)
  {
  }

  lemma FollowHas(k: Kids, p: Id, d: Id, o: Id)
    ensures o in FollowTails(k, p, d) <==> o == Root || o == p || o in TakeTails(map[], k, Root, p)
  {
  }

  // And no other, but a router's own that has been appended behind the device.
  lemma TornTaken(s: Mesh, r: Report, o: Id)
    requires Joins(s, r) && o in TailsOf(s, r)
    ensures var k := Placed(s, r).kids;
            Taken(k, r, o, At(r.mac)) || Taken(k, r, o, At(r.parent)) || Taken(k, r, Root, At(r.mac))
  {
    hide IsForest, Placed, Reach, Take, CutShort, Owner;
    var s1, d, p := Placed(s, r), At(r.mac), At(r.parent);
    DeviceSound(s, r);
    var h, t := HungDevice(s1, r), DeviceTails(s1, r);
    if o !in t && Root !in t {
      MoreTails(t, h.kids, Root, p, o);
      TakeOwners(s1, p, d, o, p);
    }
  }

  // What the two calls leave of it: the members before the first that is taken
  lemma TornPrefix(s: Mesh, r: Report, o: Id, c: Id)
    requires Joins(s, r) && Taken(Placed(s, r).kids, r, o, c) && o != Root && Root !in TailsOf(s, r)
    ensures o in Hung(s, r).kids
    ensures var l, n := Placed(s, r).kids[o], |Hung(s, r).kids[o]|;
            && n < |l| && Hung(s, r).kids[o] == l[..n] && Taken(Placed(s, r).kids, r, o, l[n])
            && forall i :: 0 <= i < n ==> !Taken(Placed(s, r).kids, r, o, l[i])
  {
    hide IsForest, Placed, Reach, Take, TakeTails, Follow, FollowTails, CutShort, Taken;
    var s1, d, p := Placed(s, r), At(r.mac), At(r.parent);
    DeviceSound(s, r);
    SoundSingle(s1);
    TakenApart(s1, r, o, c);
    TakenIn(s1.kids, r, o, c);
    TakeList(s1, p, d, o);
    var h, t := HungDevice(s1, r), DeviceTails(s1, r);
    SoundSingle(h);
    UnderRoot(h, p);
    TakeList(h, Root, p, o);
    if Root in t { DeviceOnly(s1, p, d); TailsStay(h, t, r, Root); }
    PrefixOf(s1.kids, r, o, c, h.kids[o], Hung(s, r).kids[o]);
  }

  lemma PrefixOf(k: Kids, r: Report, o: Id, c: Id, l: seq<Id>, l': seq<Id>)
    requires Taken(k, r, o, c) && o != Root && o != At(r.parent)
    requires l == if At(r.mac) in k[o] then k[o][..Index(k[o], At(r.mac))] else k[o]
    requires l' == if r.layer == 1 && At(r.parent) in l then l[..Index(l, At(r.parent))] else l
    ensures var n := |l'|;
            && n < |k[o]| && l' == k[o][..n] && Taken(k, r, o, k[o][n])
            && forall i :: 0 <= i < n ==> !Taken(k, r, o, k[o][i])
  {
    if At(r.mac) in k[o] { IndexFirst(k[o], At(r.mac)); }
    if At(r.parent) in l { IndexFirst(l, At(r.parent)); }
    if At(r.mac) !in k[o] {
      assert c == At(r.parent);
    }
  }

  lemma MendsAt(s: Mesh, roots: map<Mac, Endpoint>, r: Report, o: Id, c: Id)
    requires Orderly(s, r) && Taken(Placed(s, r).kids, r, o, c) && o != Root && Root !in TailsOf(s, r)
    ensures o in TailsOf(s, r) && o in Placed(s, r).kids && o in Update(s, roots, r).mesh.kids
    ensures Update(s, roots, r).mesh.kids[o] == [] <==> BeforeListed(Placed(s, r).kids, r, o)
  {
    hide Placed, Taken, Hung, TailsOf, TableFits, Sound, Reports.Update, Reach, Pruning.Listed;
    var k, l := Placed(s, r).kids, Update(s, roots, r).mesh.kids;
    TakenIn(k, r, o, c);
    TakenTorn(s, r, o, c);
    TornPrefix(s, r, o, c);
    var h := Hung(s, r).kids[o];
    forall e
      ensures o in l && (e in l[o] <==> e in h && !Pruning.Listed(e, r.table))
    {
      TornList(s, roots, r, o, e);
    }
    NoneLeft(h, l[o], r.table);
    BeforeIs(k, r, o, |h|);
  }

  lemma NoneLeft(h: seq<Id>, l: seq<Id>, table: seq<Mac>)
    requires forall e :: e in l <==> e in h && !Pruning.Listed(e, table)
    ensures l == [] <==> forall j: nat :: j < |h| ==> Pruning.Listed(h[j], table)
  {
    if l != [] {
      assert l[0] in l;
    }
  }

  lemma BeforeIs(k: Kids, r: Report, o: Id, n: nat)
    requires o in k && n < |k[o]| && Taken(k, r, o, k[o][n])
    requires forall i :: 0 <= i < n ==> !Taken(k, r, o, k[o][i])
    ensures forall j: nat :: Before(k, r, o, j) <==> j < n
  {
    hide Taken;
  }

  // Update leaves a forest exactly when every list that lost a member to the report is another node's than the
  // root's and held nothing but listed addresses before that member: bug_inconsistency_fix then clears it.
  lemma MendExact(s: Mesh, roots: map<Mac, Endpoint>, r: Report)
    requires Orderly(s, r)
    ensures Update(s, roots, r).intact <==> Mends(Placed(s, r).kids, r)
  {
    hide Placed, Taken, Hung, TailsOf, TableFits, Sound, Reach, Grown, Pruned, Fixed, Managed, BeforeListed;
    var k, l, t := Placed(s, r).kids, Update(s, roots, r).mesh.kids, TailsOf(s, r);
    forall o, c | Taken(k, r, o, c)
      ensures o in t
    {
      TakenTorn(s, r, o, c);
    }
    if Root in t {
      TornTaken(s, r, Root);
      assert Root in Mended(l, t);
      RootTaken(k, r);
    } else {
      forall o, c | Taken(k, r, o, c)
        ensures o != Root && o in l && o in k
        ensures l[o] == [] <==> BeforeListed(k, r, o)
      {
        MendsAt(s, roots, r, o, c);
      }
      forall o | o in t
        ensures Taken(k, r, o, At(r.mac)) || Taken(k, r, o, At(r.parent))
      {
        TornTaken(s, r, o);
      }
      MendedNone(l, t);
    }
  }

  lemma MendedNone(k: Kids, t: Tails)
    requires Root !in t && forall o :: o in t ==> o in k
    ensures Mended(k, t) == map[] <==> forall o :: o in t ==> k[o] == []
  {
    if o :| o in t && k[o] != [] {
      assert o in Mended(k, t);
    }
  }

  lemma RootTaken(k: Kids, r: Report)
    requires Taken(k, r, Root, At(r.mac)) || Taken(k, r, Root, At(r.parent))
    ensures !Mends(k, r)
  {
  }

  /* A device that changes its parent */

  // The device sits in o's list, and nothing else is taken from a list.
  ghost predicate Moves(s: Mesh, r: Report, o: Id) {
    && o in s.kids && At(r.mac) in s.kids[o] && o != At(r.parent)
    && (r.layer == 1 ==> Root in s.kids && (At(r.parent) in s.kids[Root] || !Owned(s.kids, At(r.parent))))
  }

  lemma MovesTaken(s: Mesh, r: Report, o: Id)
    requires Orderly(s, r) && Moves(s, r, o)
    ensures var k := Placed(s, r).kids;
            && o in k && k[o] == s.kids[o]
            && forall x, c :: Taken(k, r, x, c) <==> x == o && c == At(r.mac)
  {
    hide Acyclic, Reach, TableFits;
    SoundSingle(s);
    PlacedSound(s, r);
    SoundSingle(Placed(s, r));
    PlacedLists(s, r);
    forall x, c | Taken(Placed(s, r).kids, r, x, c)
      ensures x == o && c == At(r.mac)
    {
      PlacedLinks(s, r, x, c);
    }
  }

  lemma PlacedLists(s: Mesh, r: Report)
    ensures forall x :: x in s.kids ==> x in Placed(s, r).kids && Placed(s, r).kids[x] == s.kids[x]
  {
  }

  // A forest again exactly when the old parent is not the root and every sibling before the device is listed.
  lemma DeviceMoved(s: Mesh, roots: map<Mac, Endpoint>, r: Report, o: Id)
    requires Orderly(s, r) && Moves(s, r, o)
    ensures Update(s, roots, r).intact <==>
            o != Root && forall j :: 0 <= j < Index(s.kids[o], At(r.mac)) ==> Pruning.Listed(s.kids[o][j], r.table)
  {
    hide Placed, Joins, TableFits, Sound, Reports.Update, Reach, Moves, Taken;
    MovesHas(s, r, o);
    var k, i := Placed(s, r).kids, Index(s.kids[o], At(r.mac));
    MovesTaken(s, r, o);
    MendExact(s, roots, r);
    IndexFirst(s.kids[o], At(r.mac));
    BeforeIs(k, r, o, i);
    assert Mends(k, r) <==> o != Root && BeforeListed(k, r, o) by {
      assert Taken(k, r, o, At(r.mac));
    }
  }

  lemma MovesHas(s: Mesh, r: Report, o: Id)
    requires Moves(s, r, o)
    ensures o in s.kids && At(r.mac) in s.kids[o]
  {
  }

  // Then the old parent's list is empty, and the siblings behind the device that are not listed are stranded.
  lemma MovedLeaves(s: Mesh, roots: map<Mac, Endpoint>, r: Report, o: Id)
    requires Orderly(s, r) && Moves(s, r, o) && Update(s, roots, r).intact
    ensures var l, k' := s.kids[o], Update(s, roots, r).mesh.kids;
            && o in k' && k'[o] == []
            && forall j :: Index(l, At(r.mac)) < j < |l| && !Pruning.Listed(l[j], r.table) ==> !Owned(k', l[j])
  {
    hide Placed, TableFits, Sound, Reports.Update, Reach, Moves, Hung, TailsOf, Pruning.Listed, Taken, Owned;
    MovesHas(s, r, o);
    var l, k, k' := s.kids[o], Placed(s, r).kids, Update(s, roots, r).mesh.kids;
    MovesTaken(s, r, o);
    DeviceMoved(s, roots, r, o);
    IntactTails(s, roots, r, o, At(r.mac));
    forall j | Index(l, At(r.mac)) < j < |l| && !Pruning.Listed(l[j], r.table)
      ensures !Owned(k', l[j])
    {
      Stranded(s, roots, r, o, j);
    }
  }

  lemma IntactTails(s: Mesh, roots: map<Mac, Endpoint>, r: Report, o: Id, c: Id)
    requires Orderly(s, r) && Update(s, roots, r).intact && Taken(Placed(s, r).kids, r, o, c)
    ensures Root !in TailsOf(s, r) && o in Update(s, roots, r).mesh.kids && Update(s, roots, r).mesh.kids[o] == []
  {
    hide Placed, TableFits, Sound, Reach, TailsOf, Taken, Grown, Pruned, Fixed, Managed, Hung;
    TakenTorn(s, r, o, c);
    TornList(s, roots, r, o, c);
    var k', t := Update(s, roots, r).mesh.kids, TailsOf(s, r);
    assert Root in t ==> Root in Mended(k', t);
    assert k'[o] != [] ==> o in Mended(k', t);
  }

  lemma StrandedHung(s: Mesh, r: Report, o: Id, j: nat)
    requires Orderly(s, r) && Moves(s, r, o) && o != Root && Root !in TailsOf(s, r)
    requires Index(s.kids[o], At(r.mac)) < j < |s.kids[o]|
    ensures !Owned(Hung(s, r).kids, s.kids[o][j])
  {
    hide Placed, TableFits, Reach, TailsOf, Hung, Acyclic;
    var y := s.kids[o][j];
    MovesTaken(s, r, o);
    TornPrefix(s, r, o, At(r.mac));
    IndexUnique(s.kids[o], j);
    PrefixApart(s.kids[o], |Hung(s, r).kids[o]|, j);
    forall x | x in Hung(s, r).kids
      ensures y !in Hung(s, r).kids[x]
    {
      if y in Hung(s, r).kids[x] { HungLinks(s, r, x, y); }
    }
  }

  lemma Stranded(s: Mesh, roots: map<Mac, Endpoint>, r: Report, o: Id, j: nat)
    requires Orderly(s, r) && Moves(s, r, o) && o != Root && Root !in TailsOf(s, r)
    requires Index(s.kids[o], At(r.mac)) < j < |s.kids[o]| && !Pruning.Listed(s.kids[o][j], r.table)
    ensures !Owned(Update(s, roots, r).mesh.kids, s.kids[o][j])
  {
    hide TableFits, Placed, Reach, TailsOf, Hung, Pruned, Reports.Update, Prune, AddBelow, NoneAbove, Sound, Owned,
         Moves, Pruning.Listed, Fewer;
    MovesHas(s, r, o);
    StrandedHung(s, r, o, j);
    UpdateMesh(s, roots, r);
    StillUnowned(Pruned(s, r).mesh.kids, Hung(s, r).kids, s.kids[o][j]);
    GrownUnowned(Pruned(s, r).mesh, At(r.mac), r.table, s.kids[o][j]);
  }

  lemma StillUnowned(k': Kids, k: Kids, y: Id)
    requires Fewer(k', k) && !Owned(k, y)
    ensures !Owned(k', y)
  {
  }

  lemma GrownUnowned(s: Mesh, d: Id, table: seq<Mac>, y: Id)
    requires Sound(s) && d in s.kids && !Owned(s.kids, y) && !Pruning.Listed(y, table)
    ensures !Owned(AddBelow(s, d, table).mesh.kids, y)
  {
    hide Sound, AddBelow;
    forall x | x in AddBelow(s, d, table).mesh.kids
      ensures y !in AddBelow(s, d, table).mesh.kids[x]
    {
      if y in AddBelow(s, d, table).mesh.kids[x] { AddBelowLinks(s, d, table, x, y); }
    }
  }

  lemma PrefixApart(l: seq<Id>, n: nat, j: nat)
    requires Distinct(l) && n <= j < |l|
    ensures l[j] !in l[..n]
  {
    forall i | 0 <= i < n
      ensures l[..n][i] != l[j]
    {
      assert Apart(l, i, j);
    }
  }

  // Of all reports, update is known to end with a forest after those whose every write leaves one, and after
  // the orderly ones that mend what they tear.
  lemma IntactExact(s: Mesh, roots: map<Mac, Endpoint>, r: Report)
    requires Sound(s)
    ensures Update(s, roots, r).intact <==> Whole(s, r) || (Orderly(s, r) && Mends(Placed(s, r).kids, r))
  {
    hide Placed, Hung, TailsOf, TableFits, Reach, Placeable, Grown, Pruned, Fixed, Managed, IsForest, Mends;
    if Placeable(s, r) {
      PlaceableJoins(s, r);
    }
    if Joins(s, r) {
      TailsNone(s, r);
      if Orderly(s, r) {
        MendExact(s, roots, r);
      }
    }
  }

  lemma IntactRoot(s: Mesh, roots: map<Mac, Endpoint>, r: Report)
    requires Sound(s) && Update(s, roots, r).intact
    ensures Handled(s, r) && Root !in TailsOf(s, r)
  {
    hide Grown, TailsOf, Pruned, Hung, Placed, Fixed, Managed;
    assert Root in TailsOf(s, r) ==> Root in Mended(Grown(s, r).mesh.kids, TailsOf(s, r));
  }

  /* A device that sits right under the root */

  predicate NextOk(m: Memory, l: seq<Id>, j: nat)
    requires j < |l|
  {
    l[j] in m && (j + 1 < |l| ==> m[l[j]].next == Some(l[j + 1]))
  }

  // A walk along the next pointers from x's first child meets l.
  ghost predicate Walk(m: Memory, x: Id, l: seq<Id>) {
    && x in m && l != [] && m[x].children == Some(l[0])
    && forall j: nat :: j < |l| ==> NextOk(m, l, j)
  }

  lemma TornWalk(m: Memory, s: Mesh, t: Tails, x: Id)
    requires Torn(m, s, t) && x in t
    ensures x in s.kids && t[x] != [] && Walk(m, x, s.kids[x] + t[x])
  {
    hide Torn;
    TornKeys(m, s, t);
    OtherParent(m, s, t, x);
    HeadAt(m, s, t, x);
    var l := s.kids[x] + t[x];
    forall j: nat | j < |l|
      ensures NextOk(m, l, j)
    {
      ChainedAt(m, s, t, x, j);
    }
  }

  // The repair never visits the root: when the update of a device under the root ends, the root still lists it,
  // though no longer as its child; and a router that did not stand before it is in its own list.
  lemma RootStillLists(m: Memory, s: Mesh, roots: map<Mac, Endpoint>, r: Report)
    requires Orderly(s, r) && Root in s.kids && At(r.mac) in s.kids[Root]
    requires var u := Update(s, roots, r); Torn(m, u.mesh, Mended(u.mesh.kids, TailsOf(s, r)))
    ensures NoForest(m) && !Update(s, roots, r).intact
    ensures var k, t := Update(s, roots, r).mesh.kids, TailsOf(s, r);
            && Root in t && Root in k && t[Root] != [] && t[Root][0] == At(r.mac) && At(r.mac) !in k[Root]
            && Walk(m, Root, k[Root] + t[Root])
            && (r.layer == 1 && At(r.parent) !in s.kids[Root][..Index(s.kids[Root], At(r.mac))] ==>
                  At(r.parent) in k && Walk(m, At(r.parent), k[At(r.parent)] + [At(r.parent)]))
  {
    hide Placed, TableFits, Reach, TailsOf, Hung, Torn, Reports.Update, Mended, Walk, NoForest, IsForest;
    var u, d, p := Update(s, roots, r), At(r.mac), At(r.parent);
    var k, t := u.mesh.kids, TailsOf(s, r);
    RootTails(s, r);
    RootLeft(s, roots, r);
    TornNone(m, u.mesh, Mended(k, t));
    MendedHas(k, t, Root);
    MendedHas(k, t, p);
    TornWalk(m, u.mesh, Mended(k, t), Root);
    if p in t {
      ReportContract(s, roots, r);
      TornWalk(m, u.mesh, Mended(k, t), p);
    }
  }

  lemma MendedHas(k: Kids, t: Tails, o: Id)
    ensures o in t && (o == Root || (o in k && k[o] != [])) ==> o in Mended(k, t) && Mended(k, t)[o] == t[o]
  {
  }

  lemma RootTails(s: Mesh, r: Report)
    requires Joins(s, r) && Root in s.kids && At(r.mac) in s.kids[Root]
    ensures var t, p := TailsOf(s, r), At(r.parent);
            && Root in t && t[Root] != [] && t[Root][0] == At(r.mac) && Root in Hung(s, r).kids
            && At(r.mac) !in Hung(s, r).kids[Root]
            && (r.layer == 1 && p !in s.kids[Root][..Index(s.kids[Root], At(r.mac))] ==> p in t && t[p] == [p])
  {
    hide Placed, Reach, Take, IsForest, TakeTails, CutShort;
    var s1, d, p := Placed(s, r), At(r.mac), At(r.parent);
    PlacedLists(s, r);
    DeviceSound(s, r);
    SoundSingle(s1);
    OwnerIs(s1.kids, Root, d);
    TakeList(s1, p, d, Root);
    IndexFirst(s1.kids[Root], d);
    RootDevice(s1, p, d);
    var h, t := HungDevice(s1, r), DeviceTails(s1, r);
    SoundSingle(h);
    if r.layer == 1 {
      RootRouter(h, t, p, d);
    }
  }

  // The root's list is torn by losing the device only.
  lemma NoRootTail(s: Mesh, r: Report)
    requires Joins(s, r) && Root in s.kids && At(r.mac) !in s.kids[Root]
    ensures Root !in TailsOf(s, r)
  {
    hide Placed, Reach, TailsOf;
    PlacedLists(s, r);
    if Root in TailsOf(s, r) { TornTaken(s, r, Root); }
  }

  lemma RootDevice(s: Mesh, p: Id, d: Id)
    requires Owned(s.kids, d) && Owner(s.kids, d) == Root && p != Root
    ensures TakeTails(map[], s.kids, p, d) == map[Root := [d]]
  {
  }

  lemma RootRouter(h: Mesh, t: Tails, p: Id, d: Id)
    requires Sound(h) && Root in h.kids && Root in h.layer && p in h.kids && p != Root && t == map[Root := [d]]
    ensures if p in h.kids[Root]
            then TakeTails(t, h.kids, Root, p) == t && Take(h, Root, p).kids == h.kids
            else var u := FollowTails(h.kids, p, d);
                 && Root in u && u[Root] == [d, p] && p in u && u[p] == [p]
                 && Root in Follow(h, p).kids && Follow(h, p).kids[Root] == h.kids[Root]
  {
    hide Acyclic;
    SoundSingle(h);
    if p in h.kids[Root] {
      OwnerIs(h.kids, Root, p);
      TakeHangs(h, Root, p);
    }
  }

  lemma RootLeft(s: Mesh, roots: map<Mac, Endpoint>, r: Report)
    requires Orderly(s, r) && Root in TailsOf(s, r) && Root in Hung(s, r).kids && At(r.mac) !in Hung(s, r).kids[Root]
    ensures !Update(s, roots, r).intact && Root in Update(s, roots, r).mesh.kids
    ensures At(r.mac) !in Update(s, roots, r).mesh.kids[Root]
  {
    hide Placed, TableFits, Reach, TailsOf, Hung, Grown, Pruned, Fixed, Managed, IsForest, Pruning.Listed;
    TornList(s, roots, r, Root, At(r.mac));
    assert Root in Mended(Update(s, roots, r).mesh.kids, TailsOf(s, r));
  }
}
