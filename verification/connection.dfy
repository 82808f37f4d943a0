/** The cached connection state of the devices, and the events each refresh emits. */
module Connection {
  import opened Addresses
  import opened Forest
  import opened Topology
  import opened Effects
  import opened Reports
  import opened Contract
  import opened Cutting
  import opened Breaking
  import opened Mending

  datatype Event = Event(mac: Mac, connected: bool)

  // intact: the tree's pointers are known to carry a forest, mesh.
  datatype Conn = Conn(mesh: Mesh, roots: map<Mac, Endpoint>, listed: set<Mac>, unconnected: set<Mac>,
                       log: seq<Event>, intact: bool)

  datatype Op = List(mac: Mac) | Report(report: Reports.Report) | Remove(addr: Mac)

  // What one device is told by a stretch of the event log
  function Told(evs: seq<Event>, a: Mac): seq<bool> {
    if evs == [] then []
    else (if evs[0].mac == a then [evs[0].connected] else []) + Told(evs[1..], a)
  }

  lemma {:induction false} ToldAppend(e: seq<Event>, f: seq<Event>, a: Mac)
    ensures Told(e + f, a) == Told(e, a) + Told(f, a)
  {
    if e == [] {
      assert e + f == f;
    } else {
      ToldAppend(e[1..], f, a);
      assert (e + f)[1..] == e[1..] + f;
    }
  }

  // check_device_state: each listed device whose state differs is told once, newly connected
  // devices before newly disconnected ones.
  ghost predicate Refresh(listed: set<Mac>, before: set<Mac>, after: set<Mac>, evs: seq<Event>) {
    && (forall a :: Told(evs, a) == if a in listed && (a in before) != (a in after) then [a in before] else [])
    && (forall i, j :: 0 <= i < j < |evs| ==> evs[i].connected || !evs[j].connected)
  }

  // The log grows by what tells the listed devices of the new cache.
  ghost predicate Noted(c: Conn, c': Conn) {
    && |c.log| <= |c'.log| && c'.log[..|c.log|] == c.log
    && Refresh(c.listed, c.unconnected, c'.unconnected, c'.log[|c.log|..])
  }

  ghost predicate Refreshed(c: Conn, c': Conn) {
    c'.unconnected == Unconnected(c'.mesh) && Noted(c, c')
  }

  ghost predicate Unnoted(c: Conn, c': Conn) {
    c'.unconnected == c.unconnected && c'.log == c.log
  }

  // A tree operation refreshes the cache only if it reports a change.
  ghost predicate Cached(c: Conn, u: Result, c': Conn) {
    && c'.mesh == u.mesh && c'.roots == u.roots && c'.listed == c.listed && c'.intact
    && if u.change then Refreshed(c, c') else Unnoted(c, c')
  }

  // Where the tree is not known: no refresh, or one to some answer.
  ghost predicate Loose(c: Conn, c': Conn) {
    c'.listed == c.listed && !c'.intact && (Unnoted(c, c') || Noted(c, c'))
  }

  ghost predicate Step(c: Conn, op: Op, c': Conn) {
    match op
    case List(a) => c' == c.(listed := c.listed + {a})
    case Report(r) =>
      if c.intact && Sound(c.mesh) && Update(c.mesh, c.roots, r).intact then Cached(c, Update(c.mesh, c.roots, r), c')
      else Loose(c, c')
    case Remove(a) => if c.intact then Cached(c, Reports.Remove(c.mesh, c.roots, a), c') else Loose(c, c')
  }

  // Boot: every device of the database is listed, known to the tree, and unconnected.
  function Boot(macs: set<Mac>): Conn {
    Conn(KnownAll(EMPTY, macs), map[], macs, macs, [], true)
  }

  ghost predicate Agrees(c: Conn) {
    c.intact ==> Sound(c.mesh) && c.unconnected == Unconnected(c.mesh) && RootsKnown(c.mesh, c.roots)
  }

  ghost predicate Run(cs: seq<Conn>, ops: seq<Op>) {
    && |cs| == |ops| + 1
    && forall i :: 0 <= i < |ops| ==> StepAt(cs, ops, i)
  }

  ghost predicate StepAt(cs: seq<Conn>, ops: seq<Op>, i: nat)
    requires i < |ops| && |cs| == |ops| + 1
  {
    Step(cs[i], ops[i], cs[i + 1])
  }

  lemma NoLinks(s: Mesh)
    requires Root in s.kids && s.layer.Keys == s.kids.Keys && s.layer[Root] == DAEMON
    requires forall x :: x in s.kids ==> s.kids[x] == []
    ensures Sound(s)
    ensures forall y :: y != Root ==> !Below(s.kids, Root, y)
  {
    assert Ranked(s.kids, map i | i in s.kids :: 0);
    forall y | Reach(s.kids, Root, y)
      ensures y == Root
    {
      ChildlessReach(s.kids, Root, y);
    }
  }

  lemma BootAgrees(macs: set<Mac>)
    ensures Agrees(Boot(macs))
  {
    hide Sound, Below, Filled;
    var s := KnownAll(EMPTY, macs);
    BootKnows(macs);
    NoLinks(s);
    forall a
      ensures a in Unconnected(s) <==> a in macs
    {
      if a in macs { assert At(a) in s.kids; }
    }
  }

  lemma BootKnows(macs: set<Mac>)
    ensures var s := KnownAll(EMPTY, macs);
            && s.layer.Keys == s.kids.Keys && Root in s.kids && s.layer[Root] == DAEMON
            && (forall i :: i in s.kids <==> i == Root || i.addr in macs)
            && (forall x :: x in s.kids ==> s.kids[x] == [])
            && forall a :: a in macs ==> s.layer[At(a)] == UNDEFINED
  {
  }

  lemma UnconnectedByLinks(s: Mesh, s': Mesh)
    requires s'.kids == s.kids
    ensures Unconnected(s') == Unconnected(s)
  {
  }

  // Every step keeps the cached set equal to the tree's own answer, as long as the tree is known.
  lemma StepAgrees(c: Conn, op: Op, c': Conn)
    requires Agrees(c) && Step(c, op, c')
    ensures Agrees(c')
  {
    hide Sound, Unconnected, Update, Fits, Refresh, Below, Handled;
    if c'.intact {
      match op
      case List(a) =>
      case Report(r) =>
        var u := Update(c.mesh, c.roots, r);
        IntactRoot(c.mesh, c.roots, r);
        ReportRoots(c.mesh, c.roots, r);
        if !u.change {
          QuietReport(c.mesh, c.roots, r);
          UnconnectedByLinks(c.mesh, c'.mesh);
        }
      case Remove(a) =>
        RemoveAgrees(c.mesh, c.roots, a);
    }
  }

  lemma RemoveAgrees(s: Mesh, roots: map<Mac, Endpoint>, a: Mac)
    requires Sound(s) && RootsKnown(s, roots)
    ensures Sound(Reports.Remove(s, roots, a).mesh)
    ensures RootsKnown(Reports.Remove(s, roots, a).mesh, Reports.Remove(s, roots, a).roots)
    ensures !Reports.Remove(s, roots, a).change ==> Reports.Remove(s, roots, a).mesh == s
  {
    hide IsForest, Cut;
    CutSound(s, At(a));
  }

  lemma {:induction false} RunAgrees(cs: seq<Conn>, ops: seq<Op>, i: nat)
    requires Run(cs, ops) && Agrees(cs[0]) && i < |cs|
    ensures Agrees(cs[i])
  {
    hide Agrees, Step;
    if i > 0 {
      RunAgrees(cs, ops, i - 1);
      assert StepAt(cs, ops, i - 1);
      StepAgrees(cs[i - 1], ops[i - 1], cs[i]);
    }
  }

  // From boot on, after every operation the cache is exactly the known nodes no chain of child links reaches,
  // as long as every report so far was followed to the end of an update that left a forest.
  lemma Snapshot(macs: set<Mac>, cs: seq<Conn>, ops: seq<Op>, i: nat)
    requires Run(cs, ops) && cs[0] == Boot(macs) && i < |cs| && cs[i].intact
    ensures cs[i].unconnected == Unconnected(cs[i].mesh)
  {
    BootAgrees(macs);
    RunAgrees(cs, ops, i);
  }

  // That goes on exactly over removals, over the reports whose every write leaves a forest, and over the orderly
  // ones that take their device or router out of other lists and mend them.
  lemma GoesOn(macs: set<Mac>, cs: seq<Conn>, ops: seq<Op>, i: nat)
    requires Run(cs, ops) && cs[0] == Boot(macs) && i < |ops| && cs[i].intact
    ensures Sound(cs[i].mesh)
    ensures cs[i + 1].intact <==>
            (ops[i].Report? ==>
               var s, r := cs[i].mesh, ops[i].report;
               Whole(s, r) || (Orderly(s, r) && Mends(Placed(s, r).kids, r)))
  {
    hide Sound, Update, Whole, Orderly, Mends, Unconnected, Refresh;
    BootAgrees(macs);
    RunAgrees(cs, ops, i);
    assert StepAt(cs, ops, i);
    if ops[i].Report? {
      IntactExact(cs[i].mesh, cs[i].roots, ops[i].report);
    }
  }

  /* The events one device is told */

  // Starting connected or not, the told states alternate and end in the given state.
  predicate Flips(start: bool, told: seq<bool>, end: bool)
    decreases |told|
  {
    if told == [] then end == start else told[0] == !start && Flips(told[0], told[1..], end)
  }

  lemma {:induction false} FlipsAppend(start: bool, e: seq<bool>, mid: bool, f: seq<bool>, end: bool)
    requires Flips(start, e, mid) && Flips(mid, f, end)
    ensures Flips(start, e + f, end)
    decreases |e|
  {
    if e == [] {
      assert e + f == f;
    } else {
      FlipsAppend(e[0], e[1..], mid, f, end);
      assert (e + f)[1..] == e[1..] + f;
    }
  }

  lemma StepTells(c: Conn, op: Op, c': Conn, a: Mac)
    requires Step(c, op, c') && a in c.listed
    ensures a in c'.listed && |c.log| <= |c'.log| && c'.log[..|c.log|] == c.log
    ensures Flips(a !in c.unconnected, Told(c'.log[|c.log|..], a), a !in c'.unconnected)
  {
    hide Update, Unconnected, Reports.Remove, Sound;
    if c'.log == c.log {
      assert c'.log[|c.log|..] == [];
    }
  }

  // Over any run, whatever its reports, from the moment a device is listed the events it is told strictly
  // alternate, and replaying them over its state at listing gives exactly "not in the unconnected set".
  lemma {:induction false} Trace(cs: seq<Conn>, ops: seq<Op>, i: nat, j: nat, a: Mac)
    requires Run(cs, ops) && i <= j < |cs| && a in cs[i].listed
    ensures a in cs[j].listed && |cs[i].log| <= |cs[j].log| && cs[j].log[..|cs[i].log|] == cs[i].log
    ensures Flips(a !in cs[i].unconnected, Told(cs[j].log[|cs[i].log|..], a), a !in cs[j].unconnected)
    decreases j - i
  {
    hide Step;
    if i == j {
      assert cs[j].log[|cs[i].log|..] == [];
    } else {
      Trace(cs, ops, i, j - 1, a);
      assert StepAt(cs, ops, j - 1);
      var c, m, c' := cs[i].log, cs[j - 1].log, cs[j].log;
      StepTells(cs[j - 1], ops[j - 1], cs[j], a);
      assert c'[|c|..] == m[|c|..] + c'[|m|..];
      ToldAppend(m[|c|..], c'[|m|..], a);
      FlipsAppend(a !in cs[i].unconnected, Told(m[|c|..], a), a !in cs[j - 1].unconnected,
                  Told(c'[|m|..], a), a !in cs[j].unconnected);
    }
  }
}
