/** The tree of known nodes, rebuilt by route reports and cut by timeouts. */
module DeviceTree {
  import opened Addresses
  import opened Forest
  import opened Topology
  import opened Memory
  import opened TreeNode
  import opened Effects
  import opened Reports
  import opened Contract
  import opened RootDevices

  // The map's nodes and the root, under the names the forest uses.
  ghost predicate Indexed(all: Nodes, nodes: map<Mac, Node>, root: Node) {
    && Root in all && all[Root] == root
    && (forall a :: At(a) in all <==> a in nodes)
    && (forall a :: a in nodes ==> all[At(a)] == nodes[a])
  }

  lemma AtRoot(all: Nodes, nodes: map<Mac, Node>, root: Node, s: Mesh, t: Tails)
    requires Rep(all, s, t) && Indexed(all, nodes, root)
    ensures Inside(all, root) && root.id == Root && IsForest(s.kids) && Root in s.kids
  {
  }

  // Known nodes are never forgotten.
  ghost predicate Extends(n: Nodes, n': Nodes) {
    n.Keys <= n'.Keys && forall i :: i in n ==> n'[i] == n[i]
  }

  lemma Lookup(all: Nodes, nodes: map<Mac, Node>, root: Node, s: Mesh, t: Tails, a: Mac)
    requires Rep(all, s, t) && Indexed(all, nodes, root)
    ensures a in nodes <==> At(a) in all
    ensures a in nodes ==> nodes[a] == all[At(a)] && nodes[a].id == At(a) && nodes[a].addr == a && Known(s, a) == s
    ensures Extends(all, all)
  {
  }

  lemma Enter(all: Nodes, nodes: map<Mac, Node>, root: Node, x: Node)
    requires Indexed(all, nodes, root) && x.id == At(x.addr) && x.id !in all
    ensures Indexed(all[x.id := x], nodes[x.addr := x], root) && Extends(all, all[x.id := x])
  {
  }

  lemma OnlyRoot(n: Nodes, r: Node)
    requires r.id == Root && r.addr == ZERO_MAC && CellOf(r) == Cell(DAEMON, None, None, None) && n == map[Root := r]
    ensures Rep(n, EMPTY, map[])
  {
    hide Sound;
    EmptySound();
    assert NodeOk(n, Root);
    assert Head(View(n), EMPTY, map[], Root);
  }

  class Tree {
    var nodes: map<Mac, Node>
    var endpoints: map<Mac, Endpoint>
    const root: Node
    ghost var all: Nodes   // the nodes of the map, and the root
    ghost var mesh: Mesh   // the forest they carry

    // The pointers carry the forest, but for these tails of torn lists.
    ghost predicate Holds(t: Tails)
      reads this, all.Values
    {
      Rep(all, mesh, t) && Indexed(all, nodes, root)
    }

    ghost predicate Valid()
      reads this, all.Values
    {
      Holds(map[])
    }

    constructor ()
      ensures Valid() && fresh(all.Values)
      ensures mesh == EMPTY && endpoints == map[]
    {
      hide Rep;
      var r := new Node(ZERO_MAC, DAEMON, Root);
      root := r;
      nodes := map[];
      endpoints := map[];
      all := map[Root := r];
      mesh := EMPTY;
      new;
      OnlyRoot(all, r);
    }

    method GetNode(addr: Mac, ghost t: Tails) returns (n: Node)
      requires Holds(t)
      modifies this`nodes, this`all, this`mesh
      ensures Holds(t) && mesh == Known(old(mesh), addr) && Met(old(mesh), mesh, addr)
      ensures At(addr) in all && n == all[At(addr)] && n.id == At(addr) && n.addr == addr
      ensures Extends(old(all), all) && fresh(all.Values - old(all).Values)
    {
      hide Rep, Indexed, Extends, Met;
      KnownMeets(mesh, addr);
      Lookup(all, nodes, root, mesh, t, addr);
      if addr in nodes {
        n := nodes[addr];
        return;
      }
      n := new Node(addr, UNDEFINED, At(addr));
      Grow(all, mesh, t, n);
      Enter(all, nodes, root, n);
      nodes := nodes[addr := n];
      all := all[At(addr) := n];
      mesh := Known(mesh, addr);
    }

    // The recursive search of remove_node below one device.
    static method CutBelow(device: Node, addr: Mac, ghost n: Nodes, ghost s: Mesh, ghost r: map<Id, nat>)
      returns (found: bool)
      requires Rep(n, s, map[]) && Ranked(s.kids, r) && Inside(n, device)
      modifies n.Values
      ensures Rep(n, if found then Cut(s, At(addr)) else s, map[])
      ensures found <==> Below(s.kids, device.id, At(addr))
      decreases r[device.id]
    {
      hide Torn, IsForest, Cut, Reach, DropChild;
      Begin(n, s, map[], device.id);
      ghost var l := s.kids[device.id];
      var c := device.children;
      ghost var i := 0;
      while c != null
        invariant Rep(n, s, map[]) && i <= |l| && c == Nth(n, l, i) && (c == null ==> i == |l|)
        invariant forall j :: 0 <= j < i ==> !Reach(s.kids, l[j], At(addr))
        decreases |l| - i
      {
        Advance(n, s, map[], device.id, i, c);
        assert c.id in l;
        if c.addr == addr {
          CutHere(s, device.id, c.id);
          var _ := device.RemoveChild(addr, n, s, map[]);
          return true;
        }
        RankFalls(s, r, device.id, c.id);
        found := CutBelow(c, addr, n, s, r);
        if found {
          CutDeeper(s, device.id, c.id, At(addr));
          return true;
        }
        Advance(n, s, map[], device.id, i, c);
        assert !Reach(s.kids, c.id, At(addr));
        c := c.next;
        i := i + 1;
      }
      if Below(s.kids, device.id, At(addr)) {
        RepClosed(n, s);
        var d := TopLink(s.kids, device.id, At(addr));
      }
      return false;
    }

    method RemoveNode(addr: Mac) returns (change: bool)
      requires Valid()
      modifies this`endpoints, this`mesh, all.Values
      ensures Valid()
      ensures Result(mesh, endpoints, change, true) == Remove(old(mesh), old(endpoints), addr)
    {
      hide Rep, Indexed, Cut, Below, Sound, Ranked, Named;
      AtRoot(all, nodes, root, mesh, map[]);
      ghost var r := RankOf(mesh.kids);
      ghost var s' := Remove(mesh, endpoints, addr).mesh;
      change := CutBelow(root, addr, all, mesh, r);
      mesh := s';
      if change {
        endpoints := endpoints - {addr};
      }
    }

    // remove_descendent: prunes at most one unlisted child per sibling list.
    static method RemoveDescendent(device: Node, table: seq<Mac>,
                                   ghost n: Nodes, ghost s: Mesh, ghost t: Tails, ghost r: map<Id, nat>)
      returns (change: bool)
      requires Rep(n, s, t) && Ranked(s.kids, r) && Inside(n, device) && device.id in s.kids
      requires UntornBelow(s.kids, t, device.id)
      modifies n.Values
      ensures Rep(n, Prune(s, r, device.id, table).mesh, t)
      ensures change == Prune(s, r, device.id, table).change
      decreases r[device.id]
    {
      hide Torn, IsForest, SameAbove, Fewer, DropChild, UntornBelow, Untorn, Walked;
      ghost var x := device.id;
      ghost var goal := PruneFrom(s, r, x, 0, table);
      ghost var cur := s;
      ghost var l := s.kids[x];
      Begin(n, s, t, x);
      UntornWalk(s.kids, t, x);
      change := false;
      var c := device.children;
      ghost var i := 0;
      while c != null
        invariant c == null ==> Rep(n, goal.mesh, t) && change == goal.change
        invariant c != null ==>
                    && Rep(n, cur, t) && Ranked(cur.kids, r) && x in cur.kids && cur.kids[x] == l && i <= |l|
                    && UntornBelow(cur.kids, t, x) && Walked(cur.kids, t, x) == l && c == Nth(n, l, i)
                    && goal.mesh == PruneFrom(cur, r, x, i, table).mesh
                    && goal.change == (change || PruneFrom(cur, r, x, i, table).change)
        decreases |l| - i
      {
        Advance(n, cur, t, x, i, c);
        PruneReady(cur, t, r, x, c.id, table);
        ghost var inner := Prune(cur, r, c.id, table);
        var isChild := c.addr in table;
        var pruned := RemoveDescendent(c, table, n, cur, t, r);
        change := pruned || change;
        if !isChild {
          var _ := device.RemoveChild(c.addr, n, inner.mesh, t);
          change := true;
          c := c.next;
          i := |l|;
        } else {
          Advance(n, inner.mesh, t, x, i, c);
          c := c.next;
          i := i + 1;
          cur := inner.mesh;
        }
      }
    }

    // Takes a known node out of the list that holds it; a stale parent's list does not hold it.
    method Unhang(ch: Node, ghost dev: Node, ghost t: Tails)
      requires Holds(t) && Inside(all, ch) && ch.id == At(ch.addr) && Inside(all, dev)
      requires NoTail(t, ch.id) && Untorn(mesh.kids, t, ch.id)
      modifies this`mesh, all.Values
      ensures Holds(t) && mesh == Cut(old(mesh), ch.id)
      ensures dev.parent ==
              if Owned(old(mesh).kids, ch.id) && dev.id in Spine(old(mesh).kids, ch.id) then null else old(dev.parent)
    {
      hide Rep, Indexed, Cut, DropChild, Sound, Spine, Owned, Untorn;
      ParentHolds(all, mesh, t, ch);
      ghost var s' := Cut(mesh, ch.id);
      if ch.parent != null {
        var _ := ch.parent.RemoveChild(ch.addr, all, mesh, t);
      }
      mesh := s';
    }

    // add_child between two known nodes
    method HangUnder(parent: Node, ch: Node, ghost t: Tails) returns (change: bool)
      requires Holds(t) && Inside(all, parent) && Inside(all, ch) && ch.id != Root
      requires parent.id in mesh.kids && parent.id in mesh.layer && Root in mesh.layer
      modifies this`mesh, all.Values
      ensures change <==> ch.id !in Walked(old(mesh).kids, t, parent.id)
      ensures t == map[] ==>
                if CanHang(old(mesh).kids, parent.id, ch.id)
                then Valid() && mesh == Hang(old(mesh), parent.id, ch.id)
                else NoForest(View(all))
      ensures CanTake(old(mesh).kids, t, parent.id, ch.id) ==>
                && mesh == Take(old(mesh), parent.id, ch.id)
                && Holds(TakeTails(t, old(mesh).kids, parent.id, ch.id))
      ensures ch.id in old(mesh).kids[parent.id] ==> mesh == Take(old(mesh), parent.id, ch.id) && Holds(t)
      ensures parent.id == Root && Behind(old(mesh).kids, t, ch.id) ==>
                mesh == Follow(old(mesh), ch.id) && Holds(FollowTails(old(mesh).kids, ch.id, t[Root][0]))
      ensures ch != parent ==> parent.parent == old(parent.parent)
    {
      hide Rep, Indexed, Sound, NoForest, Append, CanHang, Hang, Reach, Owned, CanTake, Take, Follow, Walked, Behind,
           TakeTails, FollowTails, View, Tied, Torn;
      ghost var s := mesh;
      ghost var s' := if parent.id == Root && Behind(mesh.kids, t, ch.id) then Follow(mesh, ch.id)
                      else Take(mesh, parent.id, ch.id);
      HangLeaves(all, s, t, parent, ch);
      ghost var m := View(all);
      change := parent.AddChild(ch, all, mesh, t);
      AppendRep(all, m, s, t, parent.id, ch.id);
      mesh := s';
    }

    // One address of add_descendent's loop
    method AddOne(device: Node, a: Mac, ghost t: Tails) returns (change: bool)
      requires Holds(t) && Inside(all, device) && device.id in mesh.kids
      requires UntornBelow(mesh.kids, t, device.id) && Untorn(mesh.kids, t, At(a))
      requires t == map[] || !Reach(mesh.kids, At(a), device.id)
      modifies this`nodes, this`all, this`mesh, all.Values
      ensures Extends(old(all), all) && fresh(all.Values - old(all).Values)
      ensures change <==> !Below(old(mesh).kids, device.id, At(a))
      ensures if HangsSafely(old(mesh).kids, device.id, a)
              then Holds(t) && mesh == Rehang(old(mesh), device.id, a)
              else change && NoForest(View(all))
      ensures HangsSafely(old(mesh).kids, device.id, a) ==>
                device.parent == if StraysAt(old(mesh), device.id, a) then null else old(device.parent)
    {
      hide Rep, Indexed, Cut, Sound, Hang, Known, Met, CanHang, Below, HangsSafely, Spine, Owned, Rehang, NoForest,
           Extends, StraysAt, Tied, Reach, Untorn, NoTail, UntornBelow, CanTake, Take, TakeTails, View, Walked, Behind,
           Follow, FollowTails, Clean;
      RepRank(all, mesh, t);
      ExtendsSelf(all);
      BelowSafe(mesh, device.id, a);
      UntornClean(mesh.kids, t, device.id);
      change := device.IsDescendent(a, all, mesh, t, RankOf(mesh.kids));
      change := !change;
      if change {
        RehangReady(mesh, device.id, a);
        RehangTaken(all, mesh, t, device.id, a);
        ghost var n := all;
        var ch := GetNode(a, t);
        StillInside(n, all, device);
        KnownStrays(old(mesh), device.id, a);
        Unhang(ch, device, t);
        var more := HangUnder(device, ch, t);
      }
    }

    method AddDescendent(device: Node, table: seq<Mac>, ghost t: Tails) returns (change: bool)
      requires Holds(t) && Inside(all, device) && device.id in mesh.kids
      requires AddBelow(mesh, device.id, table).intact && Reachless(mesh.kids, t, device.id, table)
      modifies this`nodes, this`all, this`mesh, all.Values
      ensures Holds(t) && Extends(old(all), all) && fresh(all.Values - old(all).Values)
      ensures mesh == AddBelow(old(mesh), device.id, table).mesh
      ensures change == AddBelow(old(mesh), device.id, table).change
      ensures device.parent == if Strays(old(mesh), device.id, table) then null else old(device.parent)
    {
      hide Rep, Indexed, Rehang, Sound, Below, Extends, HangsSafely, StraysAt, Reachless, NoForest, View;
      RepRank(all, mesh, t);
      ExtendsSelf(all);
      ghost var goal, strayed := AddBelow(mesh, device.id, table), false;
      change := false;
      var i := 0;
      while i < |table|
        invariant i <= |table| && Holds(t) && Sound(mesh) && Inside(all, device) && device.id in mesh.kids
        invariant Extends(old(all), all) && fresh(all.Values - old(all).Values)
        invariant goal.mesh == AddBelow(mesh, device.id, table[i..]).mesh
        invariant goal.change == (change || AddBelow(mesh, device.id, table[i..]).change)
        invariant AddBelow(mesh, device.id, table[i..]).intact && Reachless(mesh.kids, t, device.id, table[i..])
        invariant Strays(old(mesh), device.id, table) == (strayed || Strays(mesh, device.id, table[i..]))
        invariant device.parent == if strayed then null else old(device.parent)
      {
        ghost var rest := table[i..];
        assert rest[0] == table[i] && rest[1..] == table[i + 1..];
        RehangSafe(mesh, device.id, table[i]);
        ReachlessNext(all, mesh, t, device.id, rest);
        strayed := strayed || StraysAt(mesh, device.id, table[i]);
        label before:
        var more := AddOne(device, table[i], t);
        ExtendsTrans(old(all), old@before(all), all, device);
        change := more || change;
        i := i + 1;
      }
    }

    method SetLayer(x: Node, layer: int)
      requires Valid() && Inside(all, x) && x.id == At(x.addr)
      modifies this`mesh, x`layer
      ensures Valid() && mesh == WithLayer(old(mesh), x.addr, layer) && x.layer == layer
    {
      hide Rep, Indexed;
      ghost var s' := WithLayer(mesh, x.addr, layer);
      x.Relayer(layer, all, mesh, map[]);
      mesh := s';
    }

    // The pointer half of bug_inconsistency_fix at one node: a list that begins with a node of another parent
    // is cleared.
    method FixPointers(x: Node, ghost t: Tails) returns (change: bool)
      requires Holds(t) && x.addr in nodes && nodes[x.addr] == x
      modifies all.Values
      ensures x.id == At(x.addr) && x.id in mesh.kids && Holds(if change then t - {x.id} else t)
      ensures change <==> x.id in t && mesh.kids[x.id] == []
      ensures x.layer == LayerOf(mesh, x.addr)
    {
      hide Rep, Indexed, NodeOk, View, Tied, Torn, Sound;
      NodeFacts(all, nodes, root, mesh, t, x.addr);
      change := false;
      if x.children != null && x.children.parent != null && x.children.parent != x {
        RepParts(all, mesh, t, x.id);
        ghost var m := View(all);
        x.SetChildren(null, all);
        MendedRep(all, m, mesh, t, x.id);
        change := true;
      }
    }

    // bug_inconsistency_fix: clears such lists, but never the root's, and drops the endpoints off layer 1.
    method FixInconsistencies(ghost t: Tails) returns (change: bool)
      requires Holds(t)
      modifies this`endpoints, all.Values
      ensures Holds(Mended(mesh.kids, t)) && endpoints == Fixed(mesh, old(endpoints))
      ensures change <==> endpoints != old(endpoints) || Mended(mesh.kids, t) != t
    {
      hide Rep, Indexed, Unfixed, Mended, Fixed, FixedBut;
      change := false;
      var rest := nodes.Keys;
      ghost var left := t;
      FixBegins(all, nodes, root, mesh, t);
      EndpointsBegin(all, nodes, root, mesh, t, endpoints);
      while rest != {}
        invariant rest <= nodes.Keys && Holds(left) && left == Unfixed(mesh.kids, t, rest)
        invariant endpoints == FixedBut(mesh, old(endpoints), nodes.Keys, rest)
        invariant change <==> endpoints != old(endpoints) || left != t
        decreases rest
      {
        var addr :| addr in rest;
        MapsTo(all, nodes, root, mesh, left, addr);
        var fixed := FixPointers(nodes[addr], left);
        UnfixedNext(mesh.kids, t, rest, addr);
        EndpointsNext(mesh, old(endpoints), nodes.Keys, rest, addr);
        left := Unfixed(mesh.kids, t, rest - {addr});
        change := fixed || change;
        if nodes[addr].layer != 1 {
          change := addr in endpoints || change;
          endpoints := endpoints - {addr};
        }
        rest := rest - {addr};
      }
    }

    method ManageDeviceRootEndpoint(x: Node, ep: Endpoint, ghost r: Report, ghost held: bool, ghost t: Tails)
      requires Holds(t) && Inside(all, x) && x.id == At(r.mac) && ep == r.endpoint
      requires At(r.parent) in all && x.parent == if held then all[At(r.parent)] else null
      modifies this`endpoints
      ensures Holds(t) && endpoints == Managed(mesh, old(endpoints), r, held)
      ensures Written(mesh, old(endpoints), endpoints, r, held)
    {
      hide Rep, Indexed;
      EndFacts(all, mesh, t, r);
      if x.parent != null && x.parent.layer == 1 {
        if x.parent.addr !in endpoints {
          endpoints := endpoints[x.parent.addr := ep];
        }
      } else if x.layer == 1 {
        if x.addr !in endpoints {
          endpoints := endpoints[x.addr := ep];
        }
      } else {
        endpoints := endpoints - {x.addr};
      }
    }

    method Unconnected() returns (un: set<Mac>)
      requires Valid()
      ensures un == Topology.Unconnected(mesh)
    {
      hide Rep, Indexed, Below;
      AtRoot(all, nodes, root, mesh, map[]);
      KnownAddrs(all, nodes, root, mesh);
      un := {};
      var rest := nodes.Keys;
      while rest != {}
        invariant rest <= nodes.Keys
        invariant un == set a | a in nodes.Keys - rest && !Below(mesh.kids, Root, At(a))
        decreases rest
      {
        var addr :| addr in rest;
        var reached := root.IsDescendent(addr, all, mesh, map[], RankOf(mesh.kids));
        if !reached {
          un := un + {addr};
        }
        rest := rest - {addr};
      }
    }

    // What boot does with the addresses of the device list
    method ReadDeviceList(macs: set<Mac>)
      requires Valid()
      modifies this`nodes, this`all, this`mesh
      ensures Valid() && mesh == KnownAll(old(mesh), macs) && fresh(all.Values - old(all).Values)
    {
      hide Rep, Indexed, KnownAll;
      KnownNone(mesh);
      ghost var s0 := mesh;
      var done := {};
      while done != macs
        invariant done <= macs && Valid() && fresh(all.Values - old(all).Values)
        invariant mesh == KnownAll(s0, done)
        decreases macs - done
      {
        var a := Missing(macs, done);
        OneMoreKnown(a, s0, done);
        done := done + {a};
      }
    }

    method OneMoreKnown(a: Mac, ghost s0: Mesh, ghost done: set<Mac>)
      requires Valid() && mesh == KnownAll(s0, done)
      modifies this`nodes, this`all, this`mesh
      ensures Valid() && mesh == KnownAll(s0, done + {a}) && fresh(all.Values - old(all).Values)
    {
      hide Rep, Indexed, Extends, Known, KnownAll;
      RepKeys(all, mesh, map[]);
      KnownNext(s0, done, a);
      var _ := GetNode(a, map[]);
    }

    static method Missing(macs: set<Mac>, done: set<Mac>) returns (a: Mac)
      requires done < macs
      ensures a in macs && a !in done
    {
      a :| a in macs && a !in done;
    }

    // The first half of update: both ends known, layered and hung
    method Place(r: Report) returns (dev: Node, change: bool)
      requires Valid() && Joins(mesh, r)
      modifies this`nodes, this`all, this`mesh, all.Values
      ensures Extends(old(all), all) && fresh(all.Values - old(all).Values)
      ensures mesh == Hung(old(mesh), r) && Holds(TailsOf(old(mesh), r))
      ensures Inside(all, dev) && dev.id == At(r.mac)
      ensures change <==> Relinked(Placed(old(mesh), r), Hung(old(mesh), r))
    {
      hide Rep, Indexed, Sound, CanHang, CanTake, Joins, Known, Met, Hang, Hung, TailsOf, Extends, NoForest, Take,
           TakeTails, Behind, Follow, FollowTails, Follows, View, Walked, HungRouter, RouterTails;
      ghost var s0 := mesh;
      PlaceSteps(s0, r);
      dev := GetNode(r.mac, map[]);
      SetLayer(dev, r.layer);
      ghost var n1 := all;
      var parent := GetNode(r.parent, map[]);
      ExtendsTrans(old(all), n1, all, dev);
      SetLayer(parent, r.layer - 1);
      assert mesh == Placed(s0, r);
      ghost var t := DeviceTails(mesh, r);
      change := HangUnder(parent, dev, map[]);
      LayerFact(all, mesh, t, parent);
      if parent.layer == 0 {
        Rooted(all, nodes, root, mesh, t);
        var more := HangUnder(root, parent, t);
        change := more || change;
      }
    }

    // The last two steps of update
    method SettleEndpoints(dev: Node, r: Report, ghost held: bool, ghost t: Tails) returns (change: bool)
      requires Holds(t) && Inside(all, dev) && dev.id == At(r.mac)
      requires At(r.parent) in all && dev.parent == if held then all[At(r.parent)] else null
      modifies this`endpoints, all.Values
      ensures Holds(Mended(mesh.kids, t))
      ensures var e := Managed(mesh, old(endpoints), r, held);
              endpoints == Fixed(mesh, e) && (change <==> Dropped(e, endpoints) || Mended(mesh.kids, t) != t)
    {
      hide Rep, Indexed, Managed, Fixed, Mended;
      ManageDeviceRootEndpoint(dev, r.endpoint, r, held, t);
      change := FixInconsistencies(t);
    }

    // The first half of update, and what the table no longer lists pruned
    method PlaceAndPrune(r: Report) returns (dev: Node, change: bool)
      requires Valid() && Joins(mesh, r)
      modifies this`nodes, this`all, this`mesh, all.Values
      ensures Extends(old(all), all) && fresh(all.Values - old(all).Values)
      ensures mesh == Pruned(old(mesh), r).mesh && Holds(TailsOf(old(mesh), r))
      ensures Inside(all, dev) && dev.id == At(r.mac)
      ensures At(r.parent) in all && dev.parent == all[At(r.parent)]
      ensures change <==> Relinked(Placed(old(mesh), r), Hung(old(mesh), r)) || Pruned(old(mesh), r).change
    {
      hide Rep, Indexed, Sound, Joins, Prune, AddBelow, Hung, TailsOf, Pruned, Grown, Extends, Placed, Relinked,
           UntornBelow, Untorn;
      ghost var t := TailsOf(mesh, r);
      UpdateSteps(mesh, r);
      TailsApart(mesh, r);
      dev, change := Place(r);
      var pruned := Prunes(dev, r.table, t);
      HeldFacts(all, mesh, t, r, dev);
      change := change || pruned;
    }

    // One route report, step by step as the source takes it. The call ends with the report's forest; a list that
    // it leaves torn, so that the pointers carry none, is named.
    method Update(r: Report) returns (change: bool)
      requires Valid() && Handled(mesh, r)
      modifies this`nodes, this`all, this`mesh, this`endpoints, all.Values
      ensures fresh(all.Values - old(all).Values)
      ensures Holds(Mended(mesh.kids, TailsOf(old(mesh), r)))
      ensures var u := Reports.Update(old(mesh), old(endpoints), r);
              && u == Result(mesh, endpoints, change, Mended(mesh.kids, TailsOf(old(mesh), r)) == map[])
              && (if u.intact then Valid() else NoForest(View(all)))
      ensures Settled(mesh, old(endpoints), endpoints, r, !Strays(Pruned(old(mesh), r).mesh, At(r.mac), r.table))
    {
      hide Rep, Indexed, Sound, Joins, TableFits, Prune, AddBelow, Strays, Fixed, Managed, Hung, Pruned, Grown, TailsOf,
           Extends, Placed, Reports.Update, Relinked, Dropped, Mended, Reachless, NoForest, View, Torn, Handled,
           Settled;
      RepSound(all, mesh, map[]);
      UpdateIs(mesh, endpoints, r);
      EndpointsSettle(mesh, endpoints, r);
      ghost var t := TailsOf(mesh, r);
      GrownIs(mesh, r);
      ReachlessFrom(mesh, r);
      var dev;
      dev, change := PlaceAndPrune(r);
      ghost var n, held := all, !Strays(mesh, dev.id, r.table);
      var filled := AddDescendent(dev, r.table, t);
      ExtendsTrans(n, n, all, dev);
      Kept(n, all, At(r.parent));
      var fixed := SettleEndpoints(dev, r, held, t);
      TornRep(all, mesh, Mended(mesh.kids, t));
      change := change || filled || fixed;
    }

    method Prunes(device: Node, table: seq<Mac>, ghost t: Tails) returns (change: bool)
      requires Holds(t) && Inside(all, device) && device.id in mesh.kids && UntornBelow(mesh.kids, t, device.id)
      modifies this`mesh, all.Values
      ensures Holds(t) && Sound(old(mesh))
      ensures mesh == Prune(old(mesh), RankOf(old(mesh).kids), device.id, table).mesh
      ensures change == Prune(old(mesh), RankOf(old(mesh).kids), device.id, table).change
    {
      hide Rep, Indexed, Sound, Ranked, Fewer, SameAbove, PruneFrom, UntornBelow;
      RepRank(all, mesh, t);
      ghost var s' := Prune(mesh, RankOf(mesh.kids), device.id, table).mesh;
      change := RemoveDescendent(device, table, all, mesh, t, RankOf(mesh.kids));
      mesh := s';
    }
  }

  lemma ExtendsSelf(n: Nodes)
    ensures Extends(n, n)
  {
  }

  lemma ExtendsTrans(n: Nodes, n': Nodes, n'': Nodes, x: Node)
    requires Extends(n, n') && Extends(n', n'') && Inside(n', x)
    ensures Extends(n, n'') && Inside(n'', x)
  {
  }

  lemma StillInside(n: Nodes, n': Nodes, x: Node)
    requires Extends(n, n') && Inside(n, x)
    ensures Inside(n', x)
  {
  }

  lemma Kept(n: Nodes, n': Nodes, i: Id)
    requires Extends(n, n') && i in n
    ensures i in n' && n'[i] == n[i]
  {
  }

  lemma RepClosed(n: Nodes, s: Mesh)
    requires Rep(n, s, map[])
    ensures Closed(s.kids)
  {
  }

  lemma RankFalls(s: Mesh, r: map<Id, nat>, x: Id, c: Id)
    requires Sound(s) && Ranked(s.kids, r) && x in s.kids && c in s.kids[x]
    ensures c in r && x in r && r[c] < r[x]
  {
  }

  lemma CutHere(s: Mesh, x: Id, c: Id)
    requires Sound(s) && x in s.kids && c in s.kids[x]
    ensures Cut(s, c) == DropChild(s, x, c) && Below(s.kids, x, c)
  {
    ReachLink(s.kids, x, c);
    LinkNoBack(s.kids, x, c);
    assert Owner(s.kids, c) == x;
  }

  lemma CutDeeper(s: Mesh, x: Id, c: Id, y: Id)
    requires Sound(s) && x in s.kids && c in s.kids[x] && Below(s.kids, c, y)
    ensures Below(s.kids, x, y)
  {
    ReachVia(s.kids, x, c, y);
    LinkNoBack(s.kids, x, c);
  }

  lemma RepSound(n: Nodes, s: Mesh, t: Tails)
    requires Rep(n, s, t)
    ensures Sound(s)
  {
  }

  lemma RepRank(n: Nodes, s: Mesh, t: Tails)
    requires Rep(n, s, t)
    ensures Sound(s) && IsForest(s.kids)
  {
  }

  lemma TornRep(n: Nodes, s: Mesh, t: Tails)
    requires Rep(n, s, t)
    ensures t != map[] ==> NoForest(View(n))
  {
    if t != map[] { TornNone(View(n), s, t); }
  }

  lemma UntornClean(k: Kids, t: Tails, d: Id)
    requires UntornBelow(k, t, d)
    ensures Clean(k, t, d)
  {
  }

  lemma UntornWalk(k: Kids, t: Tails, x: Id)
    requires x in k && UntornBelow(k, t, x)
    ensures Walked(k, t, x) == k[x]
  {
    CleanWalk(k, t, x);
  }

  // What remove_descendent finds at a member
  lemma PruneReady(s: Mesh, t: Tails, r: map<Id, nat>, x: Id, c: Id, table: seq<Mac>)
    requires Sound(s) && Ranked(s.kids, r) && x in s.kids && c in s.kids[x] && UntornBelow(s.kids, t, x)
    ensures c in s.kids && c in r && r[c] < r[x] && UntornBelow(s.kids, t, c)
    ensures var s' := Prune(s, r, c, table).mesh;
            && Ranked(s'.kids, r) && x in s'.kids && s'.kids[x] == s.kids[x] && c in s'.kids
            && UntornBelow(s'.kids, t, x) && Walked(s'.kids, t, x) == s.kids[x] && Untorn(s'.kids, t, c)
            && (x in t ==> c !in t[x])
  {
    hide IsForest, Walked, UntornBelow, Untorn, NoTail;
    var s' := Prune(s, r, c, table).mesh;
    LinkEnds(s, x, c);
    PrunedInside(s, r, x, c, table);
    UntornMember(s.kids, t, x, c);
    UntornSelf(s.kids, t, c);
    NotIn(t, x, c);
    UntornFewer(s'.kids, s.kids, t, c);
    UntornBelowFewer(s'.kids, s.kids, t, x);
    UntornWalk(s'.kids, t, x);
  }

  lemma NotIn(t: Tails, o: Id, c: Id)
    requires NoTail(t, c)
    ensures o in t ==> c !in t[o]
  {
  }

  lemma ParentHolds(n: Nodes, s: Mesh, t: Tails, ch: Node)
    requires Rep(n, s, t) && Inside(n, ch) && ch.id == At(ch.addr) && NoTail(t, ch.id)
    ensures ch.parent != null ==> Inside(n, ch.parent) && ch.parent.id in s.kids
    ensures ch.parent != null ==> (ch.parent.id in t ==> ch.id !in t[ch.parent.id])
    ensures ch.parent != null ==> DropChild(s, ch.parent.id, ch.id) == Cut(s, ch.id)
    ensures ch.parent != null ==> (ch.id in s.kids[ch.parent.id] <==> Owned(s.kids, ch.id))
    ensures ch.parent == null ==> Cut(s, ch.id) == s && !Owned(s.kids, ch.id)
  {
    hide Torn;
    TornKeys(View(n), s, t);
    assert NodeOk(n, ch.id);
    if Owned(s.kids, ch.id) {
      OwnParent(View(n), s, t, Owner(s.kids, ch.id), ch.id);
    }
  }

  // What add_child finds before its writes
  lemma HangLeaves(n: Nodes, s: Mesh, t: Tails, p: Node, c: Node)
    requires Rep(n, s, t) && Inside(n, p) && Inside(n, c) && p.id in s.kids && p.id in s.layer
    ensures Torn(View(n), s, t) && Sound(s) && p.id in View(n)
    ensures t == map[] && CanHang(s.kids, p.id, c.id) ==> Take(s, p.id, c.id) == Hang(s, p.id, c.id)
    ensures Behind(s.kids, t, c.id) && p.id == Root ==>
              c.id !in s.kids[Root] && !CanTake(s.kids, t, p.id, c.id) && t != map[]
  {
    hide Torn, Take;
    if t == map[] && CanHang(s.kids, p.id, c.id) {
      HangTakes(s, p.id, c.id);
    }
  }

  lemma AppendRep(n: Nodes, m: Memory, s: Mesh, t: Tails, p: Id, c: Id)
    requires Tied(n) && Torn(m, s, t) && Sound(s) && p in s.kids && p in m && p in s.layer
    requires View(n) == Append(m, p, c, Walked(s.kids, t, p))
    ensures c in s.kids[p] ==> Rep(n, Take(s, p, c), t)
    ensures p == Root && Behind(s.kids, t, c) ==> Rep(n, Follow(s, c), FollowTails(s.kids, c, t[Root][0]))
  {
    hide Torn, Sound, Take, Follow, FollowTails, Append, Tied;
    if c in s.kids[p] {
      ListedTorn(m, s, t, p, c);
    }
    if p == Root && Behind(s.kids, t, c) {
      FollowTorn(m, s, t, c, t[Root][0]);
    }
  }

  // What re-hanging an address finds, and that no tail is in its way
  lemma RehangTaken(n: Nodes, s: Mesh, t: Tails, d: Id, a: Mac)
    requires Rep(n, s, t) && d in s.kids && UntornBelow(s.kids, t, d) && Untorn(s.kids, t, At(a))
    requires !Below(s.kids, d, At(a)) && (t == map[] || !Reach(s.kids, At(a), d))
    ensures NoTail(t, At(a)) && Untorn(Known(s, a).kids, t, At(a))
    ensures var s2 := Cut(Known(s, a), At(a));
            && Root in s2.layer && d in s2.kids && d in s2.layer && Walked(s2.kids, t, d) == s2.kids[d]
            && (HangsSafely(s.kids, d, a) ==>
                  && CanTake(s2.kids, t, d, At(a)) && TakeTails(t, s2.kids, d, At(a)) == t
                  && Take(s2, d, At(a)) == Rehang(s, d, a))
            && (!HangsSafely(s.kids, d, a) ==> t == map[])
  {
    hide Torn, IsForest, Cut, UntornBelow, Untorn, NoTail, Reach, Known, Walked, Take;
    RehangReady(s, d, a);
    KnownForest(s, a);
    var s1 := Known(s, a);
    var s2 := Cut(s1, At(a));
    CutSound(s1, At(a));
    SoundSingle(s2);
    KnownUntorn(n, s, t, d, a);
    UntornBelowFewer(s2.kids, s1.kids, t, d);
    UntornWalk(s2.kids, t, d);
    if HangsSafely(s.kids, d, a) {
      CanTakeFrom(s2, t, d, At(a));
      TakeSame(s2, t, d, At(a));
    }
  }

  lemma TakeSame(s: Mesh, t: Tails, p: Id, c: Id)
    requires Sound(s) && p in s.kids && CanHang(s.kids, p, c)
    ensures TakeTails(t, s.kids, p, c) == t && Take(s, p, c) == Hang(s, p, c)
  {
    HangTakes(s, p, c);
  }

  lemma CanTakeFrom(s: Mesh, t: Tails, d: Id, c: Id)
    requires Sound(s) && CanHang(s.kids, d, c) && UntornBelow(s.kids, t, d) && NoTail(t, c)
    ensures CanTake(s.kids, t, d, c)
  {
    hide Acyclic, Single;
    SelfHang(s.kids, d, c);
    ReachSelf(s.kids, d);
    var l := s.kids[d];
    if l != [] {
      assert l[|l| - 1] in l;
      UntornMember(s.kids, t, d, l[|l| - 1]);
      LinkEnds(s, d, l[|l| - 1]);
      UntornSelf(s.kids, t, l[|l| - 1]);
    }
  }

  lemma TailAt(k: Kids, t: Tails, o: Id, i: nat)
    requires o in k && o in t && i < |t[o]|
    ensures |k[o]| + i < |Walked(k, t, o)| && Walked(k, t, o)[|k[o]| + i] == t[o][i]
  {
  }

  lemma TailKnown(n: Nodes, s: Mesh, t: Tails, o: Id)
    requires Rep(n, s, t) && o in t
    ensures o in s.kids && forall y :: y in t[o] ==> y in s.kids
  {
    hide Torn, Sound, Tied, Walked;
    TornKeys(View(n), s, t);
    OtherParent(View(n), s, t, o);
    forall y | y in t[o]
      ensures y in s.kids
    {
      var i :| 0 <= i < |t[o]| && t[o][i] == y;
      TailAt(s.kids, t, o, i);
      ChainedAt(View(n), s, t, o, |s.kids[o]| + i);
    }
  }

  lemma KnownUntorn(n: Nodes, s: Mesh, t: Tails, d: Id, a: Mac)
    requires Rep(n, s, t) && d in s.kids && UntornBelow(s.kids, t, d) && Untorn(s.kids, t, At(a))
    ensures NoTail(t, At(a)) && Untorn(Known(s, a).kids, t, At(a)) && UntornBelow(Known(s, a).kids, t, d)
  {
    hide Rep, Reach, Known, Sound;
    RepSound(n, s, t);
    KnownNothing(s, d, a);
    var k, k' := s.kids, Known(s, a).kids;
    forall o | o in t
      ensures At(a) !in t[o] && !Reach(k', At(a), o) && !Reach(k', d, o)
      ensures forall y :: y in t[o] ==> !Reach(k', At(a), y) && !Below(k', d, y)
    {
      TailKnown(n, s, t, o);
      forall y | y in t[o]
        ensures !Reach(k', At(a), y) && !Below(k', d, y) && y != At(a)
      {
        assert y in k && !Reach(k, At(a), y) && !Below(k, d, y);
        if y == At(a) { ReachSelf(k, y); }
      }
    }
  }

  // Making an address known connects nothing that was known.
  lemma KnownNothing(s: Mesh, d: Id, a: Mac)
    requires Sound(s) && d in s.kids
    ensures forall y :: y in s.kids && Reach(Known(s, a).kids, d, y) ==> Reach(s.kids, d, y)
    ensures forall y :: y in s.kids && Reach(Known(s, a).kids, At(a), y) ==> Reach(s.kids, At(a), y)
  {
    hide Reach, Acyclic, Single;
    KnownForest(s, a);
    forall y | y in s.kids
      ensures Reach(Known(s, a).kids, d, y) ==> Reach(s.kids, d, y)
      ensures Reach(Known(s, a).kids, At(a), y) ==> Reach(s.kids, At(a), y)
    {
      KnownReach(s, a, d, y);
      if At(a) in s.kids {
        KnownReach(s, a, At(a), y);
      } else if Reach(Known(s, a).kids, At(a), y) {
        ChildlessReach(Known(s, a).kids, At(a), y);
      }
    }
  }

  // No torn list is reached from d or from what is listed, and once one is torn nothing listed is above d.
  ghost predicate Reachless(k: Kids, t: Tails, d: Id, table: seq<Mac>) {
    UntornBelow(k, t, d) && (forall a :: a in table ==> Untorn(k, t, At(a))) && (t == map[] || NoneAbove(k, d, table))
  }

  lemma ReachlessNext(n: Nodes, s: Mesh, t: Tails, d: Id, table: seq<Mac>)
    requires Rep(n, s, t) && d in s.kids && table != [] && Reachless(s.kids, t, d, table)
    requires HangsSafely(s.kids, d, table[0])
    ensures UntornBelow(s.kids, t, d) && Untorn(s.kids, t, At(table[0]))
    ensures t == map[] || !Reach(s.kids, At(table[0]), d)
    ensures Reachless(Rehang(s, d, table[0]).kids, t, d, table[1..])
  {
    hide Rep, Reach, Rehang, Sound, HangsSafely;
    RepSound(n, s, t);
    var a, k' := table[0], Rehang(s, d, table[0]).kids;
    assert a in table && forall b :: b in table[1..] ==> b in table;
    if t != map[] {
      RehangRest(s, d, table);
      forall o | o in t
        ensures !Reach(k', d, o) && forall y :: y in t[o] ==> !Below(k', d, y)
        ensures forall b :: b in table[1..] ==> !Reach(k', At(b), o)
        ensures forall b, y :: b in table[1..] && y in t[o] ==> !Reach(k', At(b), y)
      {
        TailKnown(n, s, t, o);
        RehangNothing(s, d, a);
        forall y | y in t[o]
          ensures !Below(k', d, y) && forall b :: b in table[1..] ==> !Reach(k', At(b), y)
        {
          assert y in s.kids && !Below(s.kids, d, y) && !Reach(s.kids, At(a), y);
        }
      }
    }
  }

  // What re-hanging a newly connects is below a.
  lemma RehangNothing(s: Mesh, d: Id, a: Mac)
    requires Sound(s) && d in s.kids && !Reach(s.kids, At(a), d)
    ensures forall x, y :: y in s.kids && Reach(Rehang(s, d, a).kids, x, y) ==>
              Reach(s.kids, x, y) || Reach(s.kids, At(a), y)
  {
    hide Reach, Rehang, Sound;
    forall x, y | y in s.kids && Reach(Rehang(s, d, a).kids, x, y)
      ensures Reach(s.kids, x, y) || Reach(s.kids, At(a), y)
    {
      if !Below(s.kids, d, At(a)) { RehangReach(s, d, a, x, y); } else { RehangStays(s, d, a); }
    }
  }

  lemma RehangStays(s: Mesh, d: Id, a: Mac)
    requires Sound(s) && d in s.kids && Below(s.kids, d, At(a))
    ensures Rehang(s, d, a) == s
  {
  }

  lemma BelowSafe(s: Mesh, d: Id, a: Mac)
    requires Sound(s) && d in s.kids
    ensures Below(s.kids, d, At(a)) ==> HangsSafely(s.kids, d, a) && Rehang(s, d, a) == s && !StraysAt(s, d, a)
  {
  }

  // Resetting by the removal of an address, seen once it is known
  lemma KnownStrays(s: Mesh, d: Id, a: Mac)
    requires Sound(s) && d in s.kids && !Below(s.kids, d, At(a))
    ensures HangsSafely(s.kids, d, a) ==> At(a) != d
    ensures StraysAt(s, d, a) <==> Owned(Known(s, a).kids, At(a)) && d in Spine(Known(s, a).kids, At(a))
  {
    hide Spine;
    ReachSelf(s.kids, d);
    if At(a) !in s.kids {
      KnownForest(s, a);
    }
  }

  lemma NodeFacts(all: Nodes, nodes: map<Mac, Node>, root: Node, s: Mesh, t: Tails, a: Mac)
    requires Rep(all, s, t) && Indexed(all, nodes, root) && a in nodes
    ensures var x := nodes[a];
            && Inside(all, x) && x.id == At(a) && x.addr == a && x.id in s.kids && x.layer == LayerOf(s, a)
            && (if s.kids[x.id] != [] then x.children != null && x.children.parent == x
                else if x.id in t then x.children != null && x.children.parent != null && x.children.parent != x
                else x.children == null)
  {
    hide Torn, Sound;
    var x, m := nodes[a], View(all);
    TornKeys(m, s, t);
    Begin(all, s, t, x.id);
    HeadAt(m, s, t, x.id);
    assert NodeOk(all, x.id);
    if x.children != null {
      assert NodeOk(all, x.children.id);
      if s.kids[x.id] != [] {
        OwnParent(m, s, t, x.id, s.kids[x.id][0]);
      } else {
        OtherParent(m, s, t, x.id);
      }
    } else if x.id in t {
      OtherParent(m, s, t, x.id);
    }
  }

  lemma AllNodes(all: Nodes, nodes: map<Mac, Node>, root: Node, s: Mesh, t: Tails)
    requires Rep(all, s, t) && Indexed(all, nodes, root)
    ensures forall a :: a in nodes <==> At(a) in s.layer
  {
  }

  lemma MapsTo(all: Nodes, nodes: map<Mac, Node>, root: Node, s: Mesh, t: Tails, a: Mac)
    requires Rep(all, s, t) && Indexed(all, nodes, root) && a in nodes
    ensures nodes[a].addr == a && nodes[a].id == At(a)
  {
  }

  // The tails left while some nodes are still to be visited
  function Unfixed(k: Kids, t: Tails, rest: set<Mac>): Tails {
    map o | o in t && (o == Root || o.addr in rest || (o in k && k[o] != [])) :: t[o]
  }

  lemma FixBegins(all: Nodes, nodes: map<Mac, Node>, root: Node, s: Mesh, t: Tails)
    requires Rep(all, s, t) && Indexed(all, nodes, root)
    ensures Unfixed(s.kids, t, nodes.Keys) == t && Unfixed(s.kids, t, {}) == Mended(s.kids, t)
  {
    hide Rep, Indexed;
    AllNodes(all, nodes, root, s, t);
    RepKeys(all, s, t);
    forall o | o in t
      ensures o == Root || o.addr in nodes.Keys
    {
      TailKnown(all, s, t, o);
      assert o == Root || o == At(o.addr);
    }
    assert Unfixed(s.kids, t, nodes.Keys) == t;
  }

  // The endpoints left while some nodes are still to be visited
  function FixedBut(s: Mesh, roots: map<Mac, Endpoint>, known: set<Mac>, rest: set<Mac>): map<Mac, Endpoint> {
    map a | a in roots && (a in known && a !in rest ==> LayerOf(s, a) == 1) :: roots[a]
  }

  lemma EndpointsBegin(all: Nodes, nodes: map<Mac, Node>, root: Node, s: Mesh, t: Tails, roots: map<Mac, Endpoint>)
    requires Rep(all, s, t) && Indexed(all, nodes, root)
    ensures FixedBut(s, roots, nodes.Keys, nodes.Keys) == roots
    ensures FixedBut(s, roots, nodes.Keys, {}) == Fixed(s, roots)
  {
    hide Rep, Indexed;
    AllNodes(all, nodes, root, s, t);
    EndpointsAll(s, roots, nodes.Keys);
  }

  lemma EndpointsAll(s: Mesh, roots: map<Mac, Endpoint>, known: set<Mac>)
    requires forall a :: a in known <==> At(a) in s.layer
    ensures FixedBut(s, roots, known, known) == roots && FixedBut(s, roots, known, {}) == Fixed(s, roots)
  {
  }

  lemma EndpointsNext(s: Mesh, roots: map<Mac, Endpoint>, known: set<Mac>, rest: set<Mac>, a: Mac)
    requires a in rest && rest <= known
    ensures var e := FixedBut(s, roots, known, rest);
            && FixedBut(s, roots, known, rest - {a}) == (if LayerOf(s, a) != 1 then e - {a} else e)
            && (FixedBut(s, roots, known, rest - {a}) != roots <==> (LayerOf(s, a) != 1 && a in e) || e != roots)
  {
  }

  lemma UnfixedNext(k: Kids, t: Tails, rest: set<Mac>, a: Mac)
    requires a in rest && At(a) in k
    ensures var left := Unfixed(k, t, rest);
            && (At(a) in left <==> At(a) in t)
            && Unfixed(k, t, rest - {a}) == (if At(a) in left && k[At(a)] == [] then left - {At(a)} else left)
            && (Unfixed(k, t, rest - {a}) != t <==> (At(a) in left && k[At(a)] == []) || left != t)
  {
  }

  lemma MendedRep(n: Nodes, m: Memory, s: Mesh, t: Tails, x: Id)
    requires Tied(n) && Sound(s) && Torn(m, s, t) && x in t && x in s.kids && s.kids[x] == []
    requires x in m && View(n) == m[x := m[x].(children := None)]
    ensures Rep(n, s, t - {x})
  {
    hide Torn, Tied, Sound;
    MendTorn(m, s, t, x);
  }

  lemma RepParts(n: Nodes, s: Mesh, t: Tails, x: Id)
    requires Rep(n, s, t) && x in n
    ensures Tied(n) && Torn(View(n), s, t) && Sound(s) && x in View(n)
  {
  }

  lemma EndFacts(all: Nodes, s: Mesh, t: Tails, r: Report)
    requires Rep(all, s, t) && At(r.parent) in all && At(r.mac) in all
    ensures all[At(r.mac)].addr == r.mac && all[At(r.mac)].layer == LayerOf(s, r.mac)
    ensures all[At(r.parent)].addr == r.parent && all[At(r.parent)].layer == LayerOf(s, r.parent)
  {
    hide Torn, Sound;
    TornKeys(View(all), s, t);
    HeadAt(View(all), s, t, At(r.mac));
    HeadAt(View(all), s, t, At(r.parent));
  }

  // A listed device points to its owner.
  lemma HeldFacts(all: Nodes, s: Mesh, t: Tails, r: Report, dev: Node)
    requires Rep(all, s, t) && Inside(all, dev) && dev.id == At(r.mac)
    requires At(r.parent) in s.kids && At(r.mac) in s.kids[At(r.parent)]
    ensures At(r.parent) in all && dev.parent == all[At(r.parent)]
  {
    hide Torn;
    TornKeys(View(all), s, t);
    OwnParent(View(all), s, t, At(r.parent), At(r.mac));
    assert NodeOk(all, At(r.mac));
  }

  lemma KnownAddrs(all: Nodes, nodes: map<Mac, Node>, root: Node, s: Mesh)
    requires Rep(all, s, map[]) && Indexed(all, nodes, root)
    ensures Topology.Unconnected(s) == set a | a in nodes.Keys && !Below(s.kids, Root, At(a))
  {
    hide Rep, Indexed, Below;
    AllNodes(all, nodes, root, s, map[]);
    RepKeys(all, s, map[]);
    forall a
      ensures a in Topology.Unconnected(s) <==> a in nodes && !Below(s.kids, Root, At(a))
    {
      assert At(a) in s.kids <==> At(a) in s.layer;
      if At(a) in s.kids { assert At(a).addr == a; }
    }
  }

  lemma Rooted(all: Nodes, nodes: map<Mac, Node>, root: Node, s: Mesh, t: Tails)
    requires Rep(all, s, t) && Indexed(all, nodes, root)
    ensures Inside(all, root) && root.id == Root && Root in s.layer && Root in s.kids
  {
  }

  lemma LayerFact(n: Nodes, s: Mesh, t: Tails, x: Node)
    requires Rep(n, s, t) && Inside(n, x) && x.id == At(x.addr)
    ensures x.layer == LayerOf(s, x.addr)
  {
    assert Head(View(n), s, t, x.id);
  }

  // What each step of update finds and leaves.
  lemma PlaceSteps(s: Mesh, r: Report)
    requires Joins(s, r)
    ensures var s1, p, d := Placed(s, r), At(r.parent), At(r.mac);
            && p in s1.kids && p in s1.layer && Root in s1.layer && CanTake(s1.kids, map[], p, d)
            && var h, t := Take(s1, p, d), DeviceTails(s1, r);
            && t == TakeTails(map[], s1.kids, p, d)
            && LayerOf(h, r.parent) == r.layer - 1 && Root in h.layer && Root in h.kids && p in h.kids
            && (if r.layer - 1 != 0 then Hung(s, r) == h && TailsOf(s, r) == t
                else if p in h.kids[Root] then Hung(s, r) == Take(h, Root, p) && TailsOf(s, r) == t
                else if Root in t
                then && Behind(h.kids, t, p) && Hung(s, r) == Follow(h, p)
                     && TailsOf(s, r) == FollowTails(h.kids, p, t[Root][0])
                else && CanTake(h.kids, t, Root, p) && Hung(s, r) == Take(h, Root, p)
                     && TailsOf(s, r) == TakeTails(t, h.kids, Root, p))
            && (Relinked(s1, Hung(s, r)) <==>
                  d !in Walked(s1.kids, map[], p) || (r.layer - 1 == 0 && p !in Walked(h.kids, t, Root)))
  {
    hide IsForest, Placed, Reach, Take, TakeTails, Follow, FollowTails, CanTake, Behind, Walked, CutShort;
    var s1, p, d := Placed(s, r), At(r.parent), At(r.mac);
    PlacedSound(s, r);
    DeviceSound(s, r);
    SoundSingle(s1);
    HungSound(s, r);
    DeviceTaken(s1, p, d);
    var h, t := Take(s1, p, d), DeviceTails(s1, r);
    TakeSound(s1, p, d);
    UnderRoot(h, p);
    RouterTaken(s1, p, d);
    TailIs(s1, p, d);
    PlaceFlag(s, r);
    if r.layer - 1 == 0 && p in h.kids[Root] { RouterListed(h, t, p); }
  }

  lemma RouterListed(s: Mesh, t: Tails, p: Id)
    requires Sound(s) && Root in s.kids && p in s.kids[Root]
    ensures TakeTails(t, s.kids, Root, p) == t
  {
    OwnerIs(s.kids, Root, p);
  }

  lemma TailIs(s: Mesh, p: Id, d: Id)
    ensures Root in TakeTails(map[], s.kids, p, d) ==> TakeTails(map[], s.kids, p, d)[Root] == [d]
  {
  }

  lemma DeviceTaken(s: Mesh, p: Id, d: Id)
    requires Sound(s) && p in s.kids && d in s.kids && d != Root && !Reach(s.kids, d, p)
    ensures CanTake(s.kids, map[], p, d)
  {
  }

  // What the router's add_child finds after the device's
  lemma RouterTaken(s: Mesh, p: Id, d: Id)
    requires Sound(s) && p in s.kids && p in s.layer && d in s.kids && d != Root && p != Root && !Reach(s.kids, d, p)
    ensures var h, t := Take(s, p, d), TakeTails(map[], s.kids, p, d);
            && Root in h.kids && p in h.kids
            && (p !in h.kids[Root] && Root in t ==> Behind(h.kids, t, p))
            && (p !in h.kids[Root] && Root !in t ==> CanTake(h.kids, t, Root, p))
  {
    hide Acyclic, Reach, Take, Single, TakeTails;
    TakeSound(s, p, d);
    var h, t := Take(s, p, d), TakeTails(map[], s.kids, p, d);
    UnderRoot(h, p);
    LinkApart(h, p, d);
    TakeLast(s, p, d);
    TailNodes(s, p, d);
    if Root !in t && h.kids[Root] != [] {
      assert h.kids[Root][|h.kids[Root]| - 1] in h.kids[Root];
      OnlyUnder(h, p, d, Root);
    }
  }

  lemma OnlyUnder(s: Mesh, p: Id, d: Id, q: Id)
    requires Sound(s) && p in s.kids && d in s.kids[p] && q in s.kids && q != p
    ensures d !in s.kids[q]
  {
  }

  lemma TailNodes(s: Mesh, p: Id, d: Id)
    ensures var t := TakeTails(map[], s.kids, p, d);
            && (forall o, y :: o in t && y in t[o] ==> y == d) && (Root in t ==> t == map[Root := [d]])
  {
  }

  // A child that is taken ends up last in the parent's list.
  lemma TakeLast(s: Mesh, p: Id, d: Id)
    requires Sound(s) && p in s.kids && p in s.layer
    ensures TakeTails(map[], s.kids, p, d) != map[] ==>
              var l := Take(s, p, d).kids[p]; l != [] && l[|l| - 1] == d
  {
  }

  lemma PlaceFlag(s: Mesh, r: Report)
    requires Joins(s, r)
    ensures var s1, p, d := Placed(s, r), At(r.parent), At(r.mac);
            && p in s1.kids && p in s1.layer
            && var h, t := Take(s1, p, d), DeviceTails(s1, r);
            && Root in h.kids
            && (Relinked(s1, Hung(s, r)) <==>
                  d !in Walked(s1.kids, map[], p) || (r.layer - 1 == 0 && p !in Walked(h.kids, t, Root)))
  {
    hide IsForest, Placed, Reach, CutShort, Take;
    var s1, p, d := Placed(s, r), At(r.parent), At(r.mac);
    DeviceSound(s, r);
    HungSound(s, r);
    SoundSingle(s1);
    var h, t := Take(s1, p, d), DeviceTails(s1, r);
    if d in s1.kids[p] {
      OwnerIs(s1.kids, p, d);
      TakeHangs(s1, p, d);
      assert h.kids == s1.kids && t == map[];
      UnderRoot(h, p);
      RouterFlag(h, r);
    }
  }

  lemma RouterFlag(h: Mesh, r: Report)
    requires Sound(h) && Root in h.kids && Root in h.layer && At(r.parent) in h.kids
    ensures HungRouter(h, map[], r).kids != h.kids <==> r.layer - 1 == 0 && At(r.parent) !in h.kids[Root]
  {
    hide Acyclic, Reach, CutShort;
    var p := At(r.parent);
    UnderRoot(h, p);
    if p in h.kids[Root] { TakeHangs(h, Root, p); } else { TakeSound(h, Root, p); }
  }

  lemma UpdateIs(s: Mesh, roots: map<Mac, Endpoint>, r: Report)
    requires Sound(s) && Handled(s, r)
    ensures Joins(s, r) && Grown(s, r).intact
    ensures var m, t := Grown(s, r).mesh, TailsOf(s, r);
            var e := Managed(m, roots, r, !Strays(Pruned(s, r).mesh, At(r.mac), r.table));
            Reports.Update(s, roots, r) ==
            Result(m, Fixed(m, e),
                   Relinked(Placed(s, r), Hung(s, r)) || Pruned(s, r).change || Grown(s, r).change
                   || Dropped(e, Fixed(m, e)) || Mended(m.kids, t) != t,
                   Mended(m.kids, t) == map[])
  {
    hide Grown, Hung, Placed, Pruned, TailsOf, Fixed, Managed;
    TailsNone(s, r);
  }

  lemma UpdateSteps(s: Mesh, r: Report)
    requires Joins(s, r)
    ensures Sound(s)
    ensures var h, p, d := Hung(s, r), At(r.parent), At(r.mac);
            && d in h.kids && Sound(h)
            && Pruned(s, r) == Prune(h, RankOf(h.kids), d, r.table)
            && Sound(Pruned(s, r).mesh) && d in Pruned(s, r).mesh.kids
            && p in Pruned(s, r).mesh.kids && d in Pruned(s, r).mesh.kids[p]
            && Grown(s, r) == AddBelow(Pruned(s, r).mesh, d, r.table)
  {
    hide IsForest, Prune, AddBelow, Keeps, Spared, Hung;
    HungSound(s, r);
    PlacedPruned(s, r);
  }

  // What add_descendent finds
  lemma ReachlessFrom(s: Mesh, r: Report)
    requires Handled(s, r)
    ensures Reachless(Pruned(s, r).mesh.kids, TailsOf(s, r), At(r.mac), r.table)
  {
    hide Hung, TailsOf, UntornBelow, Untorn, Prune, Placed, TableFits, Grown;
    var k, t := Pruned(s, r).mesh.kids, TailsOf(s, r);
    TailsApart(s, r);
    UntornBelowFewer(k, Hung(s, r).kids, t, At(r.mac));
    forall a | a in r.table
      ensures Untorn(k, t, At(a))
    {
      if t == map[] {
        NoneTorn(k, At(a));
      } else {
        UntornFewer(k, Hung(s, r).kids, t, At(a));
      }
    }
  }

  lemma NoneTorn(k: Kids, c: Id)
    ensures Untorn(k, map[], c)
  {
  }

  lemma GrownIs(s: Mesh, r: Report)
    requires Joins(s, r)
    ensures Sound(Pruned(s, r).mesh) && At(r.mac) in Pruned(s, r).mesh.kids
    ensures Grown(s, r) == AddBelow(Pruned(s, r).mesh, At(r.mac), r.table)
  {
    hide Pruned, AddBelow;
  }

  // Pruning below the device leaves its own link.
  lemma PlacedPruned(s: Mesh, r: Report)
    requires Joins(s, r)
    ensures At(r.parent) in Pruned(s, r).mesh.kids && At(r.mac) in Pruned(s, r).mesh.kids[At(r.parent)]
  {
    hide IsForest, Prune, PruneFrom, Keeps, Spared, Joins, Hung;
    var h, p, d := Hung(s, r), At(r.parent), At(r.mac);
    HungSound(s, r);
    NothingAbove(h.kids, d, p, r.table);
    PruneIs(h, RankOf(h.kids), d, r.table);
    PruneKeepsLink(h, RankOf(h.kids), d, 0, r.table, p, d);
    KeepsLink(h, Pruned(s, r).mesh, p, d);
  }
}
