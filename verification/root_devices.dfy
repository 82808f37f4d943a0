/** What one route report leaves of the endpoints of the mesh's root devices. */
module RootDevices {
  import opened Addresses
  import opened Forest
  import opened Topology
  import opened Memory
  import opened Reports
  import opened Contract

  // a has an endpoint: the old one if there was one, else this.
  ghost predicate Enrolled(roots: map<Mac, Endpoint>, roots': map<Mac, Endpoint>, a: Mac, e: Endpoint) {
    a in roots' && roots'[a] == if a in roots then roots[a] else e
  }

  // a has the endpoint it had, unless it is known off layer 1.
  ghost predicate Carried(s: Mesh, roots: map<Mac, Endpoint>, roots': map<Mac, Endpoint>, a: Mac) {
    && (a in roots' <==> a in roots && (At(a) in s.layer ==> s.layer[At(a)] == 1))
    && (a in roots' ==> roots'[a] == roots[a])
  }

  // The parent the device still points to answers for it if it is at layer 1, else the device if it is, else the
  // device is no root device; all others are carried.
  ghost predicate Settled(s: Mesh, roots: map<Mac, Endpoint>, roots': map<Mac, Endpoint>, r: Report, held: bool) {
    if held && LayerOf(s, r.parent) == 1 then
      Enrolled(roots, roots', r.parent, r.endpoint) && forall a :: a != r.parent ==> Carried(s, roots, roots', a)
    else if LayerOf(s, r.mac) == 1 then
      Enrolled(roots, roots', r.mac, r.endpoint) && forall a :: a != r.mac ==> Carried(s, roots, roots', a)
    else
      r.mac !in roots' && forall a :: a != r.mac ==> Carried(s, roots, roots', a)
  }

  ghost predicate Same(roots: map<Mac, Endpoint>, roots': map<Mac, Endpoint>, a: Mac) {
    (a in roots' <==> a in roots) && (a in roots ==> roots'[a] == roots[a])
  }

  // What is written before the repair
  ghost predicate Written(s: Mesh, roots: map<Mac, Endpoint>, roots': map<Mac, Endpoint>, r: Report, held: bool) {
    if held && LayerOf(s, r.parent) == 1 then
      Enrolled(roots, roots', r.parent, r.endpoint) && forall a :: a != r.parent ==> Same(roots, roots', a)
    else if LayerOf(s, r.mac) == 1 then
      Enrolled(roots, roots', r.mac, r.endpoint) && forall a :: a != r.mac ==> Same(roots, roots', a)
    else
      r.mac !in roots' && forall a :: a != r.mac ==> Same(roots, roots', a)
  }

  lemma ManagedSettles(s: Mesh, roots: map<Mac, Endpoint>, r: Report, held: bool)
    ensures Settled(s, roots, Fixed(s, Managed(s, roots, r, held)), r, held)
  {
  }

  // A device that reports in order keeps pointing to its parent.
  lemma StillHeld(s: Mesh, r: Report)
    requires Orderly(s, r)
    ensures Sound(Pruned(s, r).mesh) && At(r.mac) in Pruned(s, r).mesh.kids
    ensures !Strays(Pruned(s, r).mesh, At(r.mac), r.table)
  {
    hide Pruned, Placed, TableFits, Reach;
    NoneAboveIntact(Pruned(s, r).mesh, At(r.mac), r.table);
  }

  // After every report that is followed to its end
  lemma EndpointsSettle(s: Mesh, roots: map<Mac, Endpoint>, r: Report)
    requires Handled(s, r)
    ensures var u := Update(s, roots, r);
            Settled(u.mesh, roots, u.roots, r, !Strays(Pruned(s, r).mesh, At(r.mac), r.table))
  {
    hide Grown, Pruned, Hung, TailsOf, Placed, Settled, Fixed, Managed, TableFits, Reach, Strays, Sound;
    ManagedSettles(Grown(s, r).mesh, roots, r, !Strays(Pruned(s, r).mesh, At(r.mac), r.table));
  }

  // After an orderly report: on layer 2 the parent is a root device, on layer 1 the device is, on any other it is
  // none; who was one before still is, with the same endpoint, unless known off layer 1.
  lemma EndpointsExact(s: Mesh, roots: map<Mac, Endpoint>, r: Report)
    requires Orderly(s, r)
    ensures var u := Update(s, roots, r);
            && (r.layer == 2 ==> Enrolled(roots, u.roots, r.parent, r.endpoint))
            && (r.layer == 1 ==> Enrolled(roots, u.roots, r.mac, r.endpoint))
            && (r.layer != 1 ==> r.mac !in u.roots)
            && forall a :: a != r.mac && !(r.layer == 2 && a == r.parent) ==> Carried(u.mesh, roots, u.roots, a)
  {
    hide Placed, TableFits, Reach, Update, Hung, Pruned, Grown, TailsOf, Strays, Sound;
    ReportContract(s, roots, r);
    StillHeld(s, r);
    OrderlyHandled(s, r);
    EndpointsSettle(s, roots, r);
  }

  lemma OrderlyHandled(s: Mesh, r: Report)
    requires Orderly(s, r)
    ensures Handled(s, r)
  {
    hide Grown, TailsOf, Placed, Reach;
  }
}
