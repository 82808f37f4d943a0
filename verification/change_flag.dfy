/** Exactly when a route report is no change. */
module ChangeFlag {
  import opened Addresses
  import opened Forest
  import opened Topology
  import opened Memory
  import opened Effects
  import opened Reports
  import opened Contract

  // The layer of a after the report has been placed
  function Reported(s: Mesh, r: Report, a: Mac): int {
    if a == r.mac then r.layer else if a == r.parent then r.layer - 1 else LayerOf(s, a)
  }

  // a stays a root device, or the device ceases to be one without a word.
  ghost predicate Unchanged(s: Mesh, r: Report, a: Mac) {
    || (At(a) !in s.layer && a != r.mac && a != r.parent)
    || Reported(s, r, a) == 1
    || (a == r.mac && r.layer != 2)
  }

  // The links are there, nothing below the device is unlisted, everything listed is below it, and no endpoint goes.
  ghost predicate NoNews(s: Mesh, roots: map<Mac, Endpoint>, r: Report) {
    var d, p := At(r.mac), At(r.parent);
    && p in s.kids && d in s.kids[p]
    && (r.layer == 1 ==> Root in s.kids && p in s.kids[Root])
    && (forall u :: Below(s.kids, d, u) ==> u.At? && u.addr in r.table)
    && (forall a :: a in r.table ==> Below(s.kids, d, At(a)))
    && (forall a :: a in roots ==> Unchanged(s, r, a))
  }

  lemma HungLayers(s: Mesh, r: Report, a: Mac)
    requires Joins(s, r)
    ensures a != r.mac && a != r.parent ==> LayerOf(Hung(s, r), a) == LayerOf(s, a)
    ensures a != r.mac && a != r.parent ==> (At(a) in Hung(s, r).layer <==> At(a) in s.layer)
    ensures LayerOf(Hung(s, r), r.mac) == r.layer && LayerOf(Hung(s, r), r.parent) == r.layer - 1
  {
    hide IsForest, Reach, CutShort;
    HungSound(s, r);
    DeviceSound(s, r);
    var s1 := Placed(s, r);
    var h := HungDevice(s1, r);
    CutShortLayer(s1, At(r.parent), At(r.mac));
    CutShortLayer(h, Root, At(r.parent));
  }

  lemma {:induction false} AllBelowQuiet(s: Mesh, d: Id, table: seq<Mac>)
    requires Sound(s) && d in s.kids
    ensures !AddBelow(s, d, table).change <==> forall a :: a in table ==> Below(s.kids, d, At(a))
    ensures !AddBelow(s, d, table).change ==> AddBelow(s, d, table).intact && !Strays(s, d, table)
    decreases |table|
  {
    hide IsForest, Reach, Owned, Spine;
    if table != [] {
      assert table == [table[0]] + table[1..];
      if Below(s.kids, d, At(table[0])) {
        AllBelowQuiet(s, d, table[1..]);
      }
    }
  }

  // The links of a report that is no change
  lemma LinksThere(s: Mesh, r: Report)
    requires Sound(s) && At(r.parent) in s.kids && At(r.mac) in s.kids[At(r.parent)]
    requires r.layer == 1 ==> Root in s.kids && At(r.parent) in s.kids[Root]
    ensures Placeable(s, r) && Joins(s, r) && Placed(s, r).kids == s.kids && Hung(s, r).kids == s.kids
  {
    hide Acyclic, Reach;
    LinkEnds(s, At(r.parent), At(r.mac));
    PlacedSame(s, r);
    PlacedSound(s, r);
    PlaceableJoins(s, r);
    var s1, p, d := Placed(s, r), At(r.parent), At(r.mac);
    DeviceSound(s, r);
    SoundSingle(s1);
    TakeHangs(s1, p, d);
    OwnerIs(s1.kids, p, d);
    if r.layer == 1 {
      TakeHangs(HungDevice(s1, r), Root, p);
    }
  }

  lemma PlacedSame(s: Mesh, r: Report)
    requires At(r.parent) in s.kids && At(r.mac) in s.kids
    ensures Placed(s, r).kids == s.kids
  {
  }

  // Which endpoints the repair drops
  lemma EndpointsStay(s: Mesh, h: Mesh, roots: map<Mac, Endpoint>, r: Report)
    requires LayerOf(h, r.mac) == r.layer && LayerOf(h, r.parent) == r.layer - 1 && r.mac != r.parent
    requires At(r.mac) in h.layer && At(r.parent) in h.layer
    requires forall a :: a != r.mac && a != r.parent ==>
               LayerOf(h, a) == LayerOf(s, a) && (At(a) in h.layer <==> At(a) in s.layer)
    ensures var e := Managed(h, roots, r, true);
            !Dropped(e, Fixed(h, e)) <==> forall a :: a in roots ==> Unchanged(s, r, a)
  {
    var e := Managed(h, roots, r, true);
    assert forall a :: a in e ==> a in roots || LayerOf(h, a) == 1;
    if a :| a in roots && !Unchanged(s, r, a) {
      assert a in e && LayerOf(h, a) == Reported(s, r, a) && At(a) in h.layer;
      assert a !in Fixed(h, e);
    }
    if forall a :: a in roots ==> Unchanged(s, r, a) {
      forall a | a in e
        ensures a in Fixed(h, e)
      {
        if a in roots { assert Unchanged(s, r, a); }
      }
      assert Fixed(h, e) == e;
    }
  }

  lemma NoNewsFlag(s: Mesh, roots: map<Mac, Endpoint>, r: Report)
    requires Placeable(s, r) && Joins(s, r) && Hung(s, r).kids == Placed(s, r).kids == s.kids
    ensures !Update(s, roots, r).change <==>
            && (forall u :: Below(s.kids, At(r.mac), u) ==> u.At? && u.addr in r.table)
            && (forall a :: a in r.table ==> Below(s.kids, At(r.mac), At(a)))
            && (forall a :: a in roots ==> Unchanged(s, r, a))
  {
    hide Placeable, Placed, Hung, TailsOf, Prune, AddBelow, Strays, IsForest, Reach, Unchanged, Fixed, Managed, Dropped,
         Below;
    HungSound(s, r);
    TailsNone(s, r);
    var h, d := Hung(s, r), At(r.mac);
    PruneFlag(h, RankOf(h.kids), d, r.table);
    SameBelow(h.kids, s.kids, d, r.table);
    AllBelowQuiet(Pruned(s, r).mesh, d, r.table);
    if !Pruned(s, r).change && !Grown(s, r).change {
      AddBelowQuiet(h, d, r.table);
      HungLayer(s, r);
      EndpointsStay(s, h, roots, r);
    }
  }

  lemma SameBelow(k: Kids, k': Kids, d: Id, table: seq<Mac>)
    requires k == k'
    ensures HasUnlisted(k, d, table) <==> !(forall u :: Below(k', d, u) ==> u.At? && u.addr in table)
  {
    hide Below;
    if u :| Below(k', d, u) && !(u.At? && u.addr in table) {
      assert Unlisted(k, d, table, u);
    }
  }

  lemma HungLayer(s: Mesh, r: Report)
    requires Joins(s, r)
    ensures var h := Hung(s, r);
            && LayerOf(h, r.mac) == r.layer && LayerOf(h, r.parent) == r.layer - 1 && r.mac != r.parent
            && At(r.mac) in h.layer && At(r.parent) in h.layer
            && forall a :: a != r.mac && a != r.parent ==>
                 LayerOf(h, a) == LayerOf(s, a) && (At(a) in h.layer <==> At(a) in s.layer)
  {
    hide Placed, Hung, IsForest, Reach, LayerOf;
    HungSound(s, r);
    forall a
      ensures a != r.mac && a != r.parent ==>
                LayerOf(Hung(s, r), a) == LayerOf(s, a) && (At(a) in Hung(s, r).layer <==> At(a) in s.layer)
    {
      HungLayers(s, r, a);
    }
    HungLayers(s, r, r.mac);
  }

  // A report on a sound tree, whatever it says, raises no flag exactly when it brings no news.
  lemma FlagExact(s: Mesh, roots: map<Mac, Endpoint>, r: Report)
    requires Sound(s)
    ensures !Update(s, roots, r).change <==> NoNews(s, roots, r)
  {
    hide Update, Placed, Hung, IsForest, Reach, Placeable, Below, Unchanged;
    SoundSingle(s);
    if !Update(s, roots, r).change {
      QuietReport(s, roots, r);
      QuietLinks(s, roots, r);
    }
    if At(r.parent) in s.kids && At(r.mac) in s.kids[At(r.parent)]
       && (r.layer == 1 ==> At(r.parent) in s.kids[Root]) {
      LinksThere(s, r);
      NoNewsFlag(s, roots, r);
    }
  }

  lemma QuietLinks(s: Mesh, roots: map<Mac, Endpoint>, r: Report)
    requires Sound(s) && !Update(s, roots, r).change
    ensures Root in s.kids && At(r.parent) in s.kids && At(r.mac) in s.kids[At(r.parent)]
    ensures r.layer == 1 ==> At(r.parent) in s.kids[Root]
  {
    hide Placed, Hung, IsForest, Reach, Placeable, Prune, AddBelow, TailsOf, Fixed, Managed;
    SoundSingle(s);
    HungSound(s, r);
    TailsNone(s, r);
    QuietHang(s, r);
  }
}
