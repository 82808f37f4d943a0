/** What a route packet says, and what it leaves in the device list. */
module Routes {
  import opened Addresses
  import opened Reports

  // The route fields of a listed device
  datatype Dev = Dev(layer: int, parent: Mac, table: seq<Mac>, endpoint: Endpoint)

  const ROUTE_SIZE := 8

  function MacAt(b: seq<Byte>, i: nat): Mac
    requires i + 6 <= |b|
  {
    Mac(b[i], b[i + 1], b[i + 2], b[i + 3], b[i + 4], b[i + 5])
  }

  // mac_ap_to_addr: the last byte of an access point's address is one above the device's.
  function ApToAddr(m: Mac): Mac {
    m.(b5 := (m.b5 + 255) % 256)
  }

  predicate WholeRoute(payload: seq<Byte>) {
    |payload| >= ROUTE_SIZE && (|payload| - ROUTE_SIZE) % 6 == 0
  }

  // The report a route packet makes of its sender: parent, layer in network order, then the table.
  function RouteOf(mac: Mac, ep: Endpoint, payload: seq<Byte>): Report
    requires WholeRoute(payload)
  {
    var layer := (payload[6] as int) * 256 + payload[7];
    var parent := MacAt(payload, 0);
    Report.Report(mac, layer, if layer != 1 then ApToAddr(parent) else parent,
                  seq((|payload| - ROUTE_SIZE) / 6,
                      i requires 0 <= i < (|payload| - ROUTE_SIZE) / 6 => MacAt(payload, ROUTE_SIZE + 6 * i)), ep)
  }

  function Elements(s: seq<Mac>): set<Mac> {
    set a | a in s
  }

  // Devices first seen in a table start out under the sender, with its endpoint.
  function Enlisted(devices: map<Mac, Dev>, r: Report): map<Mac, Dev> {
    (map a | a in r.table :: Dev(r.layer + 1, r.mac, [], r.endpoint))
    + devices[r.mac := Dev(r.layer, r.parent, r.table, r.endpoint)]
  }

  // update_endpoints: the parent (from layer 2 on) and every listed child answer at the sender's endpoint.
  function Reached(devices: map<Mac, Dev>, r: Report): map<Mac, Dev> {
    map a | a in devices ::
      if a in r.table || (r.layer >= 2 && a == r.parent) then devices[a].(endpoint := r.endpoint) else devices[a]
  }

  lemma ReachedKeys(devices: map<Mac, Dev>, r: Report)
    ensures Reached(devices, r).Keys == devices.Keys
  {
  }

  lemma RouteMac(mac: Mac, ep: Endpoint, payload: seq<Byte>)
    requires WholeRoute(payload)
    ensures RouteOf(mac, ep, payload).mac == mac
  {
  }

  lemma EnlistedKeys(devices: map<Mac, Dev>, r: Report)
    ensures r.mac in devices ==> Enlisted(devices, r).Keys == devices.Keys + Elements(r.table)
  {
  }

  lemma EnlistNone(was: map<Mac, Dev>, r: Report)
    ensures Enlisted(was, r.(table := r.table[..0])) == was[r.mac := Dev(r.layer, r.parent, [], r.endpoint)]
  {
    assert r.table[..0] == [];
  }

  lemma EnlistNext(was: map<Mac, Dev>, r: Report, child: Mac)
    ensures var e := Enlisted(was, r)[r.mac := Dev(r.layer, r.parent, r.table + [child], r.endpoint)];
            Enlisted(was, r.(table := r.table + [child])) ==
            if child in e then e else e[child := Dev(r.layer + 1, r.mac, [], r.endpoint)]
  {
  }

  /* The packet a device sends */

  type Layer = n: nat | n < 0x1_0000

  function Bytes(m: Mac): (b: seq<Byte>)
    ensures |b| == 6
  {
    [m.b0, m.b1, m.b2, m.b3, m.b4, m.b5]
  }

  function TableBytes(table: seq<Mac>): (b: seq<Byte>)
    ensures |b| == 6 * |table|
  {
    if table == [] then [] else Bytes(table[0]) + TableBytes(table[1..])
  }

  // The access point of the parent, the layer with its high byte first, and the table
  function RoutePacket(ap: Mac, layer: Layer, table: seq<Mac>): (b: seq<Byte>)
    ensures WholeRoute(b)
  {
    Bytes(ap) + [layer / 256, layer % 256] + TableBytes(table)
  }

  // What the packet is to say: a router's own address is taken as it is, any other is one too high.
  function Meant(mac: Mac, ep: Endpoint, ap: Mac, layer: Layer, table: seq<Mac>): Report {
    var below := if ap.b5 == 0 then ap.(b5 := 255) else ap.(b5 := ap.b5 - 1);
    Report.Report(mac, layer, if layer == 1 then ap else below, table, ep)
  }

  lemma {:induction false} TableAt(table: seq<Mac>, i: nat)
    requires i < |table|
    ensures 6 * i + 6 <= |TableBytes(table)| && MacAt(TableBytes(table), 6 * i) == table[i]
  {
    hide MacAt;
    var b, rest := Bytes(table[0]), TableBytes(table[1..]);
    if i == 0 {
      MacAfter([], b, rest);
    } else {
      TableAt(table[1..], i - 1);
      MacSkips(b, rest, 6 * (i - 1));
    }
  }

  lemma MacAfter(before: seq<Byte>, b: seq<Byte>, after: seq<Byte>)
    requires |b| == 6
    ensures MacAt(before + b + after, |before|) == Mac(b[0], b[1], b[2], b[3], b[4], b[5])
    ensures before == [] ==> before + b + after == b + after
  {
  }

  lemma MacSkips(before: seq<Byte>, b: seq<Byte>, i: nat)
    requires i + 6 <= |b|
    ensures MacAt(before + b, |before| + i) == MacAt(b, i)
  {
  }

  // The packet is read as it was meant.
  lemma RouteRead(mac: Mac, ep: Endpoint, ap: Mac, layer: Layer, table: seq<Mac>)
    ensures RouteOf(mac, ep, RoutePacket(ap, layer, table)) == Meant(mac, ep, ap, layer, table)
  {
    hide TableBytes;
    var head, b := Bytes(ap) + [layer / 256, layer % 256], RoutePacket(ap, layer, table);
    assert layer == layer / 256 * 256 + layer % 256;
    assert MacAt(b, 0) == ap;
    forall i | 0 <= i < |table|
      ensures MacAt(b, ROUTE_SIZE + 6 * i) == table[i]
    {
      TableAt(table, i);
      MacSkips(head, TableBytes(table), 6 * i);
    }
    assert RouteOf(mac, ep, b).table == table;
  }

  lemma {:induction false} AnyTable(b: seq<Byte>) returns (table: seq<Mac>)
    requires |b| % 6 == 0
    ensures TableBytes(table) == b
  {
    if b == [] {
      table := [];
    } else {
      var rest := AnyTable(b[6..]);
      table := [MacAt(b, 0)] + rest;
      assert b == Bytes(MacAt(b, 0)) + b[6..] && table[1..] == rest;
    }
  }

  // Every packet of whole addresses is such a one.
  lemma AnyRoute(payload: seq<Byte>) returns (ap: Mac, layer: Layer, table: seq<Mac>)
    requires WholeRoute(payload)
    ensures payload == RoutePacket(ap, layer, table)
  {
    ap, layer := MacAt(payload, 0), (payload[6] as int) * 256 + payload[7];
    table := AnyTable(payload[ROUTE_SIZE..]);
  }

  /* The device list afterwards */

  // The sender as reported, listed devices that were not known under it, all others as they were
  ghost predicate Listed(was: map<Mac, Dev>, now: map<Mac, Dev>, r: Report) {
    && (forall a :: a in now <==> a in was || a == r.mac || a in r.table)
    && now[r.mac] == Dev(r.layer, r.parent, r.table, r.endpoint)
    && (forall a :: a in now && a !in was && a != r.mac ==> now[a] == Dev(r.layer + 1, r.mac, [], r.endpoint))
    && (forall a :: a in was && a != r.mac ==> now[a] == was[a])
  }

  // The endpoint of the devices in the table and, from layer 2 on, of the parent; nothing else
  ghost predicate Answering(was: map<Mac, Dev>, now: map<Mac, Dev>, r: Report) {
    && was.Keys == now.Keys
    && forall a :: a in was ==>
         now[a] == Dev(was[a].layer, was[a].parent, was[a].table,
                       if a in r.table || (r.layer > 1 && a == r.parent) then r.endpoint else was[a].endpoint)
  }

  // Both
  ghost predicate Learned(was: map<Mac, Dev>, now: map<Mac, Dev>, r: Report) {
    && (forall a :: a in now <==> a in was || a == r.mac || a in r.table)
    && now[r.mac] == Dev(r.layer, r.parent, r.table, r.endpoint)
    && (forall a :: a in now && a !in was && a != r.mac ==> now[a] == Dev(r.layer + 1, r.mac, [], r.endpoint))
    && (forall a :: a in was && a != r.mac ==>
          now[a] == Dev(was[a].layer, was[a].parent, was[a].table,
                        if a in r.table || (r.layer > 1 && a == r.parent) then r.endpoint else was[a].endpoint))
  }

  lemma EnlistedLists(was: map<Mac, Dev>, r: Report)
    ensures Listed(was, Enlisted(was, r), r)
  {
  }

  lemma ReachedAnswers(was: map<Mac, Dev>, r: Report)
    ensures Answering(was, Reached(was, r), r)
  {
  }

  // What the list holds once the tree has taken the report
  lemma RouteLearned(was: map<Mac, Dev>, r: Report)
    ensures Learned(was, Reached(Enlisted(was, r), r), r)
  {
    hide Enlisted, Reached;
    EnlistedLists(was, r);
    ReachedAnswers(Enlisted(was, r), r);
  }

  // Every route packet as it was meant, in the list and in the report the tree gets
  lemma RouteTaken(was: map<Mac, Dev>, mac: Mac, ep: Endpoint, payload: seq<Byte>)
    requires WholeRoute(payload)
    ensures forall ap, layer, table :: payload == RoutePacket(ap, layer, table) ==>
              var r := Meant(mac, ep, ap, layer, table);
              RouteOf(mac, ep, payload) == r && Learned(was, Reached(Enlisted(was, r), r), r)
  {
    hide RouteOf, RoutePacket, Meant, Learned, Enlisted, Reached, WholeRoute;
    forall ap, layer, table | payload == RoutePacket(ap, layer, table)
      ensures var r := Meant(mac, ep, ap, layer, table);
              RouteOf(mac, ep, payload) == r && Learned(was, Reached(Enlisted(was, r), r), r)
    {
      RouteRead(mac, ep, ap, layer, table);
      RouteLearned(was, Meant(mac, ep, ap, layer, table));
    }
  }
}
