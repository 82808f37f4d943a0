/** The daemon's instance: device list, tree and cached connection state. */
module Instances {
  import opened Addresses
  import opened Forest
  import opened Topology
  import opened TreeNode
  import opened DeviceTree
  import opened Reports
  import opened Mending
  import opened Routes
  import Memory
  import RootDevices
  import C = Connection

  function Events(l: seq<Mac>, connected: bool): seq<C.Event> {
    seq(|l|, i requires 0 <= i < |l| => C.Event(l[i], connected))
  }

  lemma EventsNext(l: seq<Mac>, a: Mac, connected: bool, b: Mac)
    ensures C.Told(Events(l + [a], connected), b) ==
            C.Told(Events(l, connected), b) + if a == b then [connected] else []
  {
    assert Events(l + [a], connected) == Events(l, connected) + [C.Event(a, connected)];
    C.ToldAppend(Events(l, connected), [C.Event(a, connected)], b);
  }

  // Exactly the given devices are told, once each.
  ghost predicate Tells(l: seq<Mac>, connected: bool, who: set<Mac>) {
    forall a :: C.Told(Events(l, connected), a) == if a in who then [connected] else []
  }

  lemma TellsNone(connected: bool)
    ensures forall x: set<Mac> :: x == {} ==> Tells([], connected, x)
  {
  }

  lemma TellsNext(l: seq<Mac>, connected: bool, who: set<Mac>, a: Mac)
    requires Tells(l, connected, who) && a !in who
    ensures Tells(l + [a], connected, who + {a})
  {
    forall b
      ensures C.Told(Events(l + [a], connected), b) == if b in who + {a} then [connected] else []
    {
      EventsNext(l, a, connected, b);
    }
  }

  lemma TellsBoth(l: seq<Mac>, m: seq<Mac>, listed: set<Mac>, before: set<Mac>, after: set<Mac>)
    requires Tells(l, true, listed * before - after) && Tells(m, false, listed * after - before)
    ensures C.Refresh(listed, before, after, Events(l, true) + Events(m, false))
  {
    forall a
      ensures C.Told(Events(l, true) + Events(m, false), a) == C.Told(Events(l, true), a) + C.Told(Events(m, false), a)
    {
      C.ToldAppend(Events(l, true), Events(m, false), a);
    }
  }

  class Instance {
    const tree: Tree
    var devices: map<Mac, Dev>
    var unconnected: set<Mac>
    var log: seq<C.Event>

    ghost predicate Valid()
      reads this, tree, tree.all.Values
    {
      tree.Valid()
    }

    ghost function State(): C.Conn
      reads this, tree
    {
      C.Conn(tree.mesh, tree.endpoints, devices.Keys, unconnected, log, true)
    }

    // Boot: the device list comes from the database and every device starts unconnected.
    constructor (stored: map<Mac, Dev>)
      ensures Valid() && fresh(tree) && fresh(tree.all.Values)
      ensures State() == C.Boot(stored.Keys) && devices == stored
    {
      hide Rep, Indexed, KnownAll;
      tree := new Tree();
      devices := stored;
      unconnected := stored.Keys;
      log := [];
      new;
      tree.ReadDeviceList(stored.Keys);
    }

    // The loop of check_device_state: who connected and who disconnected between two refreshes
    static method Differences(listed: set<Mac>, before: set<Mac>, after: set<Mac>) returns (evs: seq<C.Event>)
      ensures C.Refresh(listed, before, after, evs)
    {
      hide Tells, Events, C.Told, C.Refresh;
      var newConnected: seq<Mac> := [];
      var newDisconnected: seq<Mac> := [];
      var done: set<Mac> := {};
      TellsNone(true);
      TellsNone(false);
      while listed - done != {}
        invariant done <= listed
        invariant Tells(newConnected, true, done * before - after)
        invariant Tells(newDisconnected, false, done * after - before)
        decreases listed - done
      {
        var addr :| addr in listed - done;
        var hasNew, hasOld := addr in after, addr in before;
        var next := done + {addr};
        if hasNew != hasOld {
          if hasOld {
            TellsNext(newConnected, true, done * before - after, addr);
            newConnected := newConnected + [addr];
            assert next * before - after == (done * before - after) + {addr};
            assert next * after - before == done * after - before;
          } else {
            TellsNext(newDisconnected, false, done * after - before, addr);
            newDisconnected := newDisconnected + [addr];
            assert next * after - before == (done * after - before) + {addr};
            assert next * before - after == done * before - after;
          }
        } else {
          assert next * before - after == done * before - after;
          assert next * after - before == done * after - before;
        }
        done := next;
      }
      assert forall a :: a in listed - done <==> a in listed && a !in done;
      assert done == listed;
      evs := Events(newConnected, true) + Events(newDisconnected, false);
      TellsBoth(newConnected, newDisconnected, listed, before, after);
    }

    method CheckDeviceState()
      requires Valid()
      modifies this`unconnected, this`log
      ensures Valid() && C.Refreshed(old(State()), State())
    {
      hide Rep, Indexed, C.Refresh;
      var newUnconnected := tree.Unconnected();
      var evs := Differences(devices.Keys, unconnected, newUnconnected);
      log := log + evs;
      unconnected := newUnconnected;
      assert log[|old(log)|..] == evs;
    }

    method UpdateTree(r: Report) returns (change: bool)
      requires Valid() && Update(tree.mesh, tree.endpoints, r).intact
      modifies this, tree, tree.all.Values
      ensures Valid() && fresh(tree.all.Values - old(tree.all).Values)
      ensures C.Step(old(State()), C.Report(r), State())
      ensures change == Update(old(tree.mesh), old(tree.endpoints), r).change
      ensures devices == Reached(old(devices), r)
    {
      hide Rep, Indexed, C.Refresh, Handled, Update, Unconnected, Sound, Memory.NoForest, Mended, TailsOf, Orderly,
           C.Step, C.Refreshed, TreeNode.View, Fits, Placeable, Followed, Pruned, Strays, RootDevices.Settled,
           Reached;
      ghost var c := State();
      RepRank(tree.all, tree.mesh, map[]);
      IntactRoot(tree.mesh, tree.endpoints, r);
      ReachedKeys(devices, r);
      devices := Reached(devices, r);
      change := tree.Update(r);
      ghost var now := State();
      if change {
        CheckDeviceState();
      }
      ReportSteps(c, r, now, change, State());
    }

    method RemoveNodeFromTree(addr: Mac) returns (change: bool)
      requires Valid()
      modifies this`unconnected, this`log, tree, tree.all.Values
      ensures Valid() && tree.all == old(tree.all)
      ensures C.Step(old(State()), C.Remove(addr), State())
      ensures change <==> Below(old(tree.mesh).kids, Root, At(addr))
    {
      hide Rep, Indexed, C.Refresh, Unconnected, Sound, Cut, Below;
      change := tree.RemoveNode(addr);
      if change {
        CheckDeviceState();
      }
    }

    // update_route_data: the sender's fields, its table, and an entry for every new child
    static method UpdateRouteData(was: map<Mac, Dev>, mac: Mac, ep: Endpoint, payload: seq<Byte>)
      returns (devices: map<Mac, Dev>)
      requires WholeRoute(payload)
      ensures devices == Enlisted(was, RouteOf(mac, ep, payload))
      ensures forall ap, layer, table :: payload == RoutePacket(ap, layer, table) ==>
                Listed(was, devices, Meant(mac, ep, ap, layer, table))
    {
      hide Enlisted;
      var r := RouteOf(mac, ep, payload);
      var n := (|payload| - ROUTE_SIZE) / 6;
      var self := Dev(r.layer, r.parent, [], ep);
      devices := was[mac := self];
      var i := 0;
      EnlistNone(was, r);
      while i < n
        invariant 0 <= i <= n == |r.table| && mac in devices && devices[mac] == self
        invariant self == Dev(r.layer, r.parent, r.table[..i], ep)
        invariant devices == Enlisted(was, r.(table := r.table[..i]))
      {
        var child := MacAt(payload, ROUTE_SIZE + 6 * i);
        EnlistNext(was, r.(table := r.table[..i]), child);
        assert r.table[..i + 1] == r.table[..i] + [child];
        self := self.(table := self.table + [child]);
        devices := devices[mac := self];
        if child !in devices {
          devices := devices[child := Dev(self.layer + 1, mac, [], ep)];
        }
        i := i + 1;
      }
      assert r.(table := r.table[..n]) == r;
      EnlistedLists(was, r);
      RouteTaken(was, mac, ep, payload);
    }

    // A route packet: the sender's data, then the tree
    method ProcessRoute(mac: Mac, ep: Endpoint, payload: seq<Byte>) returns (ok: bool)
      requires Valid() && mac in devices
      requires |payload| >= ROUTE_SIZE ==>
                 WholeRoute(payload) && Update(tree.mesh, tree.endpoints, RouteOf(mac, ep, payload)).intact
      modifies this, tree, tree.all.Values
      ensures Valid()
      ensures ok <==> |payload| >= ROUTE_SIZE
      ensures !ok ==> State() == old(State()) && devices == old(devices)
      ensures ok ==>
                var r := RouteOf(mac, ep, payload);
                && devices == Reached(Enlisted(old(devices), r), r)
                && C.Step(old(State()).(listed := old(devices).Keys + Elements(r.table)), C.Report(r), State())
      ensures forall ap, layer, table :: ok && payload == RoutePacket(ap, layer, table) ==>
                var r := Meant(mac, ep, ap, layer, table);
                && Learned(old(devices), devices, r)
                && C.Step(old(State()).(listed := old(devices).Keys + Elements(table)), C.Report(r), State())
    {
      hide Rep, Indexed, RouteOf, Update, Enlisted, Reached, C.Step, Learned, Answering, Listed, RoutePacket;
      if |payload| < ROUTE_SIZE {
        return false;
      }
      ghost var r := RouteOf(mac, ep, payload);
      EnlistedKeys(devices, r);
      RouteMac(mac, ep, payload);
      RouteTaken(devices, mac, ep, payload);
      devices := UpdateRouteData(devices, mac, ep, payload);
      var _ := UpdateTree(RouteOf(mac, ep, payload));
      return true;
    }
  }

  lemma ReportSteps(c: C.Conn, r: Report, now: C.Conn, change: bool, c': C.Conn)
    requires Sound(c.mesh) && c.intact && now == c.(mesh := now.mesh, roots := now.roots)
    requires Update(c.mesh, c.roots, r) == Result(now.mesh, now.roots, change, true)
    requires if change then C.Refreshed(now, c') else c' == now
    requires c' == now.(unconnected := c'.unconnected, log := c'.log)
    ensures C.Step(c, C.Report(r), c')
  {
    hide Update, Sound, C.Refresh, Unconnected;
  }
}
