/** One route report: what Tree::update does with it, and when it is safe to process. */
module Reports {
  import opened Addresses
  import opened Forest
  import opened Topology
  import opened Memory

  datatype Endpoint = Endpoint(host: nat, port: nat)

  // What the tree reads of a reporting device (src/device/device.hpp).
  datatype Report = Report(mac: Mac, layer: int, parent: Mac, table: seq<Mac>, endpoint: Endpoint)

  datatype Result = Result(mesh: Mesh, roots: map<Mac, Endpoint>, change: bool, intact: bool)

  // Both ends of the reported link known, with the layers the report implies.
  function Placed(s: Mesh, r: Report): Mesh {
    WithLayer(Known(WithLayer(Known(s, r.mac), r.mac, r.layer), r.parent), r.parent, r.layer - 1)
  }

  // The reported parent is not the device, nor below it.
  ghost predicate Joins(s: Mesh, r: Report) {
    Sound(s) && r.mac != r.parent && !Reach(Placed(s, r).kids, At(r.mac), At(r.parent))
  }

  // The device is detached or already under its reported parent, which is not below it, and a layer-0
  // parent is detached or directly under the root: both ends can be hung.
  ghost predicate Placeable(s: Mesh, r: Report) {
    var k := Placed(s, r).kids;
    && Sound(s)
    && CanHang(k, At(r.parent), At(r.mac))
    && (r.layer == 1 ==> At(r.parent) in k[Root] || !Owned(k, At(r.parent)))
  }

  // No listed address is the device, its parent, or above one of them.
  ghost predicate TableFits(s: Mesh, r: Report) {
    forall a :: a in r.table ==>
                  !Reach(Placed(s, r).kids, At(a), At(r.mac)) && !Reach(Placed(s, r).kids, At(a), At(r.parent))
  }

  // What the report says can be brought about.
  ghost predicate Orderly(s: Mesh, r: Report) {
    Joins(s, r) && TableFits(s, r)
  }

  // And no list has to be torn for it.
  ghost predicate Fits(s: Mesh, r: Report) {
    Placeable(s, r) && Orderly(s, r)
  }

  lemma PlacedSound(s: Mesh, r: Report)
    requires Sound(s)
    ensures Sound(Placed(s, r)) && At(r.mac) in Placed(s, r).kids && At(r.parent) in Placed(s, r).kids
    ensures Placed(s, r).layer[At(r.parent)] == r.layer - 1
    ensures r.mac != r.parent ==> Placed(s, r).layer[At(r.mac)] == r.layer
  {
    hide IsForest;
    var s1 := Known(s, r.mac);
    KnownForest(s, r.mac);
    LayerSound(s1, r.mac, r.layer);
    var s2 := Known(WithLayer(s1, r.mac, r.layer), r.parent);
    KnownForest(WithLayer(s1, r.mac, r.layer), r.parent);
    LayerSound(s2, r.parent, r.layer - 1);
  }

  /* The two add_child calls: the forest, and what the torn lists go on with */

  ghost function HungDevice(s: Mesh, r: Report): Mesh
    requires At(r.parent) in s.kids && At(r.parent) in s.layer
  {
    Take(s, At(r.parent), At(r.mac))
  }

  ghost function DeviceTails(s: Mesh, r: Report): Tails {
    TakeTails(map[], s.kids, At(r.parent), At(r.mac))
  }

  // A router that the root does not list is appended behind the device the root has just lost to it.
  ghost predicate Follows(k: Kids, t: Tails, r: Report)
    requires Root in k
  {
    Root in t && At(r.parent) !in k[Root]
  }

  // A layer-0 parent is a router and hangs under the daemon's root.
  ghost function HungRouter(s: Mesh, t: Tails, r: Report): Mesh
    requires Root in s.kids && Root in s.layer
  {
    if r.layer - 1 != 0 then s
    else if Follows(s.kids, t, r) then Follow(s, At(r.parent))
    else Take(s, Root, At(r.parent))
  }

  ghost function RouterTails(s: Mesh, t: Tails, r: Report): Tails
    requires Root in s.kids
  {
    if r.layer - 1 != 0 then t
    else if Follows(s.kids, t, r) then FollowTails(s.kids, At(r.parent), At(r.mac))
    else TakeTails(t, s.kids, Root, At(r.parent))
  }

  // What add_child newly connects goes over the new link.
  lemma TakeReach(s: Mesh, p: Id, c: Id, x: Id, y: Id)
    requires Sound(s) && p in s.kids && p in s.layer && c in s.kids && Reach(Take(s, p, c).kids, x, y)
    ensures Reach(s.kids, x, y) || (Reach(s.kids, x, p) && Reach(s.kids, c, y))
  {
    hide CutShort, Reach, Acyclic, Single;
    var s' := CutShort(s, p, c);
    CutShortSound(s, p, c);
    if c in s'.kids[p] {
      FewerReach(s'.kids, s.kids, x, y);
    } else {
      NewLinkReach(s'.kids, p, c, x, y);
      if Reach(s'.kids, x, y) {
        FewerReach(s'.kids, s.kids, x, y);
      } else {
        FewerReach(s'.kids, s.kids, x, p);
        FewerReach(s'.kids, s.kids, c, y);
      }
    }
  }

  lemma UnderRoot(s: Mesh, p: Id)
    requires Sound(s) && p != Root
    ensures Root in s.kids && !Reach(s.kids, p, Root)
  {
    if Reach(s.kids, p, Root) { UnownedOnlySelf(s.kids, p, Root); }
  }

  lemma DeviceSound(s: Mesh, r: Report)
    requires Joins(s, r)
    ensures Sound(Placed(s, r)) && At(r.parent) in Placed(s, r).kids && At(r.parent) in Placed(s, r).layer
    ensures var h := HungDevice(Placed(s, r), r);
            && Sound(h) && h.kids.Keys == Placed(s, r).kids.Keys && At(r.mac) in h.kids && At(r.parent) in h.kids
            && At(r.mac) in h.kids[At(r.parent)] && Root in h.kids && Root in h.layer
            && h.layer[At(r.parent)] == r.layer - 1 && h.layer[At(r.mac)] == r.layer
  {
    hide IsForest, Placed, Reach, CutShort;
    PlacedSound(s, r);
    TakeSound(Placed(s, r), At(r.parent), At(r.mac));
    CutShortLayer(Placed(s, r), At(r.parent), At(r.mac));
    UnderRoot(HungDevice(Placed(s, r), r), At(r.mac));
  }

  // The forest after both calls
  ghost function Hung(s: Mesh, r: Report): Mesh
    requires Joins(s, r)
  {
    DeviceSound(s, r);
    HungRouter(HungDevice(Placed(s, r), r), DeviceTails(Placed(s, r), r), r)
  }

  // What torn lists go on with after both calls
  ghost function TailsOf(s: Mesh, r: Report): Tails
    requires Joins(s, r)
  {
    DeviceSound(s, r);
    RouterTails(HungDevice(Placed(s, r), r), DeviceTails(Placed(s, r), r), r)
  }

  lemma CutShortKeeps(s: Mesh, q: Id, p: Id, d: Id)
    requires Sound(s) && p in s.kids && d in s.kids[p] && p != d
    ensures p in CutShort(s, q, p).kids && d in CutShort(s, q, p).kids[p]
  {
    if p in s.kids[p] { LinkNoBack(s.kids, p, p); }
  }

  lemma RouterSound(h: Mesh, t: Tails, r: Report)
    requires Sound(h) && At(r.parent) in h.kids && At(r.mac) in h.kids[At(r.parent)] && r.mac != r.parent
    ensures Root in h.kids && Root in h.layer && At(r.mac) in h.kids
    ensures var h' := HungRouter(h, t, r);
            && Sound(h') && h'.kids.Keys == h.kids.Keys && At(r.mac) in h'.kids[At(r.parent)]
            && (r.layer == 1 ==> At(r.parent) in h'.kids[Root] || Follows(h.kids, t, r))
            && h'.layer[At(r.mac)] == h.layer[At(r.mac)]
            && h'.layer[At(r.parent)] == if r.layer == 1 then 0 else h.layer[At(r.parent)]
  {
    hide IsForest, CutShort, Reach;
    var p := At(r.parent);
    UnderRoot(h, p);
    LinkEnds(h, p, At(r.mac));
    CutShortSound(h, Root, p);
    CutShortKeeps(h, Root, p, At(r.mac));
    CutShortLayer(h, Root, p);
    TakeSound(h, Root, p);
  }

  lemma CutShortLayer(s: Mesh, p: Id, c: Id)
    ensures CutShort(s, p, c).layer == s.layer
  {
  }

  lemma RouterReach(h: Mesh, t: Tails, r: Report, x: Id, y: Id)
    requires Sound(h) && Root in h.kids && Root in h.layer && At(r.parent) in h.kids
    requires x != Root && Reach(HungRouter(h, t, r).kids, x, y)
    ensures Reach(h.kids, x, y)
  {
    hide IsForest, CutShort, Reach;
    UnderRoot(h, x);
    if r.layer == 1 && Follows(h.kids, t, r) {
      CutShortSound(h, Root, At(r.parent));
      FewerReach(HungRouter(h, t, r).kids, h.kids, x, y);
    } else if r.layer == 1 {
      TakeReach(h, Root, At(r.parent), x, y);
    }
  }

  // What the two calls newly connect, the root aside, goes over the reported link.
  lemma HungReach(s: Mesh, r: Report, x: Id, y: Id)
    requires Joins(s, r) && x != Root && Reach(Hung(s, r).kids, x, y)
    ensures var k := Placed(s, r).kids;
            Reach(k, x, y) || (Reach(k, x, At(r.parent)) && Reach(k, At(r.mac), y))
  {
    hide IsForest, HungDevice, HungRouter, Placed, Reach, DeviceTails;
    PlacedSound(s, r);
    DeviceSound(s, r);
    var h := HungDevice(Placed(s, r), r);
    RouterReach(h, DeviceTails(Placed(s, r), r), r, x, y);
    DeviceReach(Placed(s, r), r, x, y);
  }

  lemma DeviceReach(s: Mesh, r: Report, x: Id, y: Id)
    requires Sound(s) && At(r.parent) in s.kids && At(r.parent) in s.layer && At(r.mac) in s.kids
    requires Reach(HungDevice(s, r).kids, x, y)
    ensures Reach(s.kids, x, y) || (Reach(s.kids, x, At(r.parent)) && Reach(s.kids, At(r.mac), y))
  {
    hide Take, Reach;
    TakeReach(s, At(r.parent), At(r.mac), x, y);
  }

  lemma HungSound(s: Mesh, r: Report)
    requires Joins(s, r)
    ensures Sound(Hung(s, r)) && Hung(s, r).kids.Keys == Placed(s, r).kids.Keys
    ensures At(r.mac) in Hung(s, r).kids && At(r.parent) in Hung(s, r).kids
    ensures At(r.mac) in Hung(s, r).kids[At(r.parent)]
    ensures r.layer == 1 ==> At(r.parent) in Hung(s, r).kids[Root] || Root in TailsOf(s, r)
    ensures TableFits(s, r) ==>
              NoneAbove(Hung(s, r).kids, At(r.mac), r.table) && NoneAbove(Hung(s, r).kids, At(r.parent), r.table)
    ensures Hung(s, r).layer[At(r.parent)] == r.layer - 1 && Hung(s, r).layer[At(r.mac)] == r.layer
  {
    hide IsForest, Placed, HungDevice, HungRouter, DeviceTails, Reach, TakeTails;
    DeviceSound(s, r);
    RouterSound(HungDevice(Placed(s, r), r), DeviceTails(Placed(s, r), r), r);
    forall a | a in r.table && TableFits(s, r)
      ensures !Reach(Hung(s, r).kids, At(a), At(r.mac)) && !Reach(Hung(s, r).kids, At(a), At(r.parent))
    {
      if Reach(Hung(s, r).kids, At(a), At(r.mac)) { HungReach(s, r, At(a), At(r.mac)); }
      if Reach(Hung(s, r).kids, At(a), At(r.parent)) { HungReach(s, r, At(a), At(r.parent)); }
    }
  }

  // Torn lists go on with the device or the parent.
  lemma TailHas(s: Mesh, r: Report, o: Id)
    requires Joins(s, r) && o in TailsOf(s, r)
    ensures var d, p := At(r.mac), At(r.parent);
            TailsOf(s, r)[o] != [] && forall y :: y in TailsOf(s, r)[o] ==> y == d || y == p
  {
    hide Sound, Placed, Reach, Take, Follow, Owned, Owner, Follows;
    DeviceSound(s, r);
  }

  // They are the root's, the parent's, and those that held the device or the parent.
  lemma TailEnds(s: Mesh, r: Report, o: Id)
    requires Joins(s, r) && o in TailsOf(s, r)
    ensures var k, d, p := Placed(s, r).kids, At(r.mac), At(r.parent);
            && o in k && o in Hung(s, r).kids && o != d && (o == Root || Reach(k, o, d) || Reach(k, o, p))
            && TailsOf(s, r)[o] != [] && forall y :: y in TailsOf(s, r)[o] ==> y == d || y == p
  {
    hide IsForest, Placed, Reach, Take, Follow;
    var s1, d, p := Placed(s, r), At(r.mac), At(r.parent);
    TailHas(s, r, o);
    PlacedSound(s, r);
    DeviceSound(s, r);
    HungSound(s, r);
    ReachSelf(s1.kids, p);
    var h := HungDevice(s1, r);
    if o in DeviceTails(s1, r) {
      TakenEnds(s1, p, d, o);
    } else if o != p && o != Root {
      TakenEnds(h, Root, p, o);
      TakeReach(s1, p, d, o, p);
    }
  }

  lemma TakenEnds(s: Mesh, p: Id, c: Id, o: Id)
    requires Sound(s) && o in TakeTails(map[], s.kids, p, c)
    ensures o in s.kids && Reach(s.kids, o, c) && o != c
  {
    ReachLink(s.kids, o, c);
    LinkNoBack(s.kids, o, c);
  }

  // From the device, and from what a fitting table lists, no torn list is reached.
  lemma TailsApart(s: Mesh, r: Report)
    requires Joins(s, r)
    ensures UntornBelow(Hung(s, r).kids, TailsOf(s, r), At(r.mac))
    ensures TableFits(s, r) ==> forall a :: a in r.table ==> Untorn(Hung(s, r).kids, TailsOf(s, r), At(a))
  {
    hide IsForest, Placed, Reach, Hung, TailsOf;
    var k, k', d, p := Placed(s, r).kids, Hung(s, r).kids, At(r.mac), At(r.parent);
    HungSound(s, r);
    PlacedSound(s, r);
    forall o | o in TailsOf(s, r)
      ensures !Reach(k', d, o)
      ensures forall y :: y in TailsOf(s, r)[o] ==> !Below(k', d, y)
      ensures TableFits(s, r) ==> forall a :: a in r.table ==> !Reach(k', At(a), o)
      ensures TableFits(s, r) ==> forall a, y :: a in r.table && y in TailsOf(s, r)[o] ==> !Reach(k', At(a), y)
    {
      TailEnds(s, r, o);
      if Reach(k', d, o) { TailMissed(s, r, d, o); }
      if Reach(k', d, p) { HungReach(s, r, d, p); }
      forall a | TableFits(s, r) && a in r.table
        ensures !Reach(k', At(a), o)
      {
        if Reach(k', At(a), o) { TailMissed(s, r, At(a), o); }
      }
    }
  }

  lemma TailMissed(s: Mesh, r: Report, x: Id, o: Id)
    requires Joins(s, r) && o in TailsOf(s, r) && x != Root && Reach(Hung(s, r).kids, x, o)
    ensures Reach(Placed(s, r).kids, x, At(r.parent)) || (x != At(r.mac) && Reach(Placed(s, r).kids, x, At(r.mac)))
  {
    hide Placed, Reach, Hung, TailsOf, Acyclic, Single;
    var k, d, p := Placed(s, r).kids, At(r.mac), At(r.parent);
    PlacedSound(s, r);
    TailEnds(s, r, o);
    HungReach(s, r, x, o);
    if Reach(k, x, o) {
      if o == Root {
        UnderRoot(Placed(s, r), x);
      } else if Reach(k, o, p) {
        ReachTrans(k, x, o, p);
      } else {
        ReachTrans(k, x, o, d);
        if x == d { NoCycle(k, o, d); }
      }
    }
  }

  lemma NoTails(s: Mesh, t: Tails, r: Report)
    requires Root in s.kids
    ensures RouterTails(s, t, r) == map[] <==>
            t == map[] && (r.layer == 1 && Owned(s.kids, At(r.parent)) ==> Owner(s.kids, At(r.parent)) == Root)
  {
    hide Owner, Owned;
    if r.layer == 1 && !Follows(s.kids, t, r) && Owned(s.kids, At(r.parent)) {
      assert Owner(s.kids, At(r.parent)) != Root ==> Owner(s.kids, At(r.parent)) in RouterTails(s, t, r);
    }
    if x :| x in t {
      assert r.layer == 1 && !Follows(s.kids, t, r) ==> x in RouterTails(s, t, r);
    }
    assert r.layer == 1 && Follows(s.kids, t, r) ==> Root in RouterTails(s, t, r);
  }

  lemma OwnerIs(k: Kids, o: Id, c: Id)
    requires Single(k) && o in k && c in k[o]
    ensures Owned(k, c) && Owner(k, c) == o
  {
  }

  // Taking d leaves the owners of the others, but where it cuts a list short.
  lemma TakeOwners(s: Mesh, p: Id, d: Id, q: Id, y: Id)
    requires p in s.kids && p in s.layer && y != d
    ensures q in Take(s, p, d).kids && y in Take(s, p, d).kids[q] ==> q in s.kids && y in s.kids[q]
    ensures TakeTails(map[], s.kids, p, d) == map[] && q in s.kids && y in s.kids[q] ==>
              q in Take(s, p, d).kids && y in Take(s, p, d).kids[q]
  {
    assert Owned(s.kids, d) && Owner(s.kids, d) != p ==> Owner(s.kids, d) in TakeTails(map[], s.kids, p, d);
  }

  // Both ends can be hung exactly when no list is torn; one that is torn is a change.
  lemma TailsNone(s: Mesh, r: Report)
    requires Joins(s, r)
    ensures TailsOf(s, r) == map[] <==> Placeable(s, r)
    ensures TailsOf(s, r) != map[] ==> Hung(s, r).kids != Placed(s, r).kids
  {
    hide Acyclic, Placed, Reach, Take, Single, Closed, Follow, FollowTails, CutShort, HungRouter, RouterTails;
    var s1, d, p := Placed(s, r), At(r.mac), At(r.parent);
    var k := s1.kids;
    PlacedSound(s, r);
    DeviceSound(s, r);
    HungSound(s, r);
    var h := HungDevice(s1, r);
    NoTails(h, DeviceTails(s1, r), r);
    SoundSingle(s1);
    SoundSingle(h);
    DeviceNone(s1, p, d);
    if DeviceTails(s1, r) == map[] {
      RouterNone(s1, p, d);
      if TailsOf(s, r) != map[] {
        RouterChanges(h, s1, r);
      }
    }
  }

  lemma SoundSingle(s: Mesh)
    requires Sound(s)
    ensures Single(s.kids) && Root in s.kids
  {
  }

  lemma DeviceNone(s: Mesh, p: Id, d: Id)
    requires Single(s.kids) && p in s.kids && d in s.kids && d != Root && !Reach(s.kids, d, p)
    ensures TakeTails(map[], s.kids, p, d) == map[] <==> CanHang(s.kids, p, d)
  {
    assert Owned(s.kids, d) && Owner(s.kids, d) != p ==> Owner(s.kids, d) in TakeTails(map[], s.kids, p, d);
    if d in s.kids[p] { OwnerIs(s.kids, p, d); }
  }

  lemma RouterNone(s: Mesh, p: Id, d: Id)
    requires Sound(s) && p in s.kids && p in s.layer && p != d && TakeTails(map[], s.kids, p, d) == map[]
    requires Sound(Take(s, p, d))
    ensures var k := Take(s, p, d).kids;
            (Owned(k, p) ==> Owner(k, p) == Root) <==> (p in s.kids[Root] || !Owned(s.kids, p))
  {
    hide Acyclic, Take, TakeTails, Closed;
    var k := Take(s, p, d).kids;
    SoundSingle(s);
    SoundSingle(Take(s, p, d));
    if Owned(k, p) { TakeOwners(s, p, d, Owner(k, p), p); }
    if Owned(s.kids, p) { TakeOwners(s, p, d, Owner(s.kids, p), p); }
    if p in s.kids[Root] { TakeOwners(s, p, d, Root, p); }
  }

  lemma RouterChanges(h: Mesh, s: Mesh, r: Report)
    requires Sound(h) && At(r.parent) in h.kids && Root in h.kids && Root in h.layer
    requires r.mac != r.parent && At(r.parent) in s.kids && At(r.parent) in s.layer && h == HungDevice(s, r)
    requires r.layer == 1 && Owned(h.kids, At(r.parent)) && Owner(h.kids, At(r.parent)) != Root
    ensures HungRouter(h, map[], r).kids != s.kids
  {
    hide Acyclic, Reach, CutShort;
    var p := At(r.parent);
    var o := Owner(h.kids, p);
    UnderRoot(h, p);
    TakeSound(h, Root, p);
    var k := Take(h, Root, p).kids;
    TakeOwners(s, p, At(r.mac), o, p);
    assert p in k[Root];
    assert Single(k) && p !in k[o];
  }

  lemma PlaceableJoins(s: Mesh, r: Report)
    requires Placeable(s, r)
    ensures Joins(s, r)
  {
    hide Acyclic, Single;
    PlacedSound(s, r);
    SelfHang(Placed(s, r).kids, At(r.parent), At(r.mac));
  }

  // remove_descendent over what is below the device then
  ghost function Pruned(s: Mesh, r: Report): (o: Outcome)
    requires Joins(s, r)
    ensures Sound(o.mesh) && Fewer(o.mesh.kids, Hung(s, r).kids) && At(r.mac) in o.mesh.kids
    ensures TableFits(s, r) ==> NoneAbove(o.mesh.kids, At(r.mac), r.table)
  {
    HungSound(s, r);
    var h := Hung(s, r);
    var o := Prune(h, RankOf(h.kids), At(r.mac), r.table);
    FewerAbove(o.mesh.kids, h.kids, At(r.mac), r.table);
    o
  }

  lemma FewerAbove(k': Kids, k: Kids, d: Id, table: seq<Mac>)
    requires Fewer(k', k)
    ensures NoneAbove(k, d, table) ==> NoneAbove(k', d, table)
  {
    forall a | a in table && Reach(k', At(a), d)
      ensures Reach(k, At(a), d)
    {
      FewerReach(k', k, At(a), d);
    }
  }

  // add_descendent
  ghost function Grown(s: Mesh, r: Report): (o: Outcome)
    requires Joins(s, r)
    ensures Sound(o.mesh)
    ensures TableFits(s, r) ==> o.intact
  {
    var o := AddBelow(Pruned(s, r).mesh, At(r.mac), r.table);
    assert TableFits(s, r) ==> o.intact by {
      if TableFits(s, r) {
        NoneAboveIntact(Pruned(s, r).mesh, At(r.mac), r.table);
      }
    }
    o
  }

  /* Endpoints of the mesh's root devices */

  function LayerOf(s: Mesh, a: Mac): int {
    if At(a) in s.layer then s.layer[At(a)] else UNDEFINED
  }

  function AddRoot(roots: map<Mac, Endpoint>, a: Mac, e: Endpoint): map<Mac, Endpoint> {
    if a in roots then roots else roots[a := e]
  }

  // held: the device still points to its reported parent.
  function Managed(s: Mesh, roots: map<Mac, Endpoint>, r: Report, held: bool): map<Mac, Endpoint> {
    if held && LayerOf(s, r.parent) == 1 then AddRoot(roots, r.parent, r.endpoint)
    else if LayerOf(s, r.mac) == 1 then AddRoot(roots, r.mac, r.endpoint)
    else roots - {r.mac}
  }

  // The endpoint half of bug_inconsistency_fix.
  function Fixed(s: Mesh, roots: map<Mac, Endpoint>): map<Mac, Endpoint> {
    map a | a in roots && (At(a) in s.layer ==> s.layer[At(a)] == 1) :: roots[a]
  }

  predicate Relinked(s: Mesh, s': Mesh) {
    s'.kids != s.kids
  }

  predicate Dropped(roots: map<Mac, Endpoint>, roots': map<Mac, Endpoint>) {
    roots' != roots
  }

  // The pointer half of bug_inconsistency_fix: a list that begins with its tail is cleared, but never the root's.
  function Mended(k: Kids, t: Tails): Tails {
    map o | o in t && (o == Root || (o in k && k[o] != [])) :: t[o]
  }

  // The reports followed to the end: all writes leave a forest, or, once a list is torn, the table fits.
  ghost predicate Handled(s: Mesh, r: Report) {
    && Joins(s, r) && Grown(s, r).intact
    && (TailsOf(s, r) == map[] || TableFits(s, r))
  }

  lemma FollowedFlag(s: Mesh, roots: map<Mac, Endpoint>, r: Report)
    requires Sound(s)
    ensures Joins(s, r) && !Followed(s, roots, r).intact ==> Followed(s, roots, r).change
    ensures Fits(s, r) ==> Handled(s, r) && Followed(s, roots, r).intact
    ensures Joins(s, r) ==> Sound(Followed(s, roots, r).mesh)
  {
    hide Grown, Pruned, Hung, TailsOf, Placed, Sound, Fixed, Managed, Placeable;
    if Placeable(s, r) {
      PlaceableJoins(s, r);
    }
    if Joins(s, r) {
      TailsNone(s, r);
    }
  }

  // Tree::update. Intact: it is followed to its end, and no list is torn then. Of the rest only the flag is said.
  ghost function Update(s: Mesh, roots: map<Mac, Endpoint>, r: Report): (u: Result)
    requires Sound(s)
    ensures Sound(u.mesh) && (!u.intact ==> u.change) && (Fits(s, r) ==> u.intact)
    ensures Orderly(s, r) ==> u == Followed(s, roots, r)
  {
    FollowedFlag(s, roots, r);
    if Handled(s, r) then Followed(s, roots, r) else Result(s, roots, true, false)
  }

  ghost function Followed(s: Mesh, roots: map<Mac, Endpoint>, r: Report): Result
    requires Joins(s, r)
  {
    var m := Grown(s, r).mesh;
    var e := Managed(m, roots, r, !Strays(Pruned(s, r).mesh, At(r.mac), r.table));
    Result(m, Fixed(m, e),
           Relinked(Placed(s, r), Hung(s, r)) || Pruned(s, r).change || Grown(s, r).change || Dropped(e, Fixed(m, e)),
           Mended(m.kids, TailsOf(s, r)) == map[])
  }

  // Tree::remove_node with the daemon's root as starting point
  ghost function Remove(s: Mesh, roots: map<Mac, Endpoint>, a: Mac): Result {
    if Below(s.kids, Root, At(a)) then Result(Cut(s, At(a)), roots - {a}, true, true)
    else Result(s, roots, false, true)
  }
}
