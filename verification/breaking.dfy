/** The pointer writes of a report that leave no forest: exactly which they are. */
module Breaking {
  import opened Addresses
  import opened Forest
  import opened Topology
  import opened Memory
  import opened Effects
  import opened Reports
  import opened Contract

  // add_child of c under p, on pointers that carry the forest s, leaves pointers that carry none.
  ghost predicate Breaks(s: Mesh, p: Id, c: Id) {
    Sound(s) && p in s.kids && c in s.kids && c != Root && !CanHang(s.kids, p, c)
  }

  // It appends, so it reports a change.
  lemma BreaksMeans(s: Mesh, p: Id, c: Id)
    requires Breaks(s, p, c)
    ensures c !in s.kids[p]
    ensures forall m :: Shape(m, s) ==> p in m && NoForest(Append(m, p, c, s.kids[p]))
  {
    hide NoForest, Append, Linked, IsForest;
    forall m | Shape(m, s)
      ensures p in m && NoForest(Append(m, p, c, s.kids[p]))
    {
      HangTears(m, s, p, c);
    }
  }

  /* The three kinds of add_child in an update */

  ghost predicate DeviceBreaks(s: Mesh, r: Report) {
    Breaks(Placed(s, r), At(r.parent), At(r.mac))
  }

  ghost predicate RouterBreaks(s: Mesh, r: Report) {
    && CanHang(Placed(s, r).kids, At(r.parent), At(r.mac)) && At(r.parent) in Placed(s, r).layer
    && r.layer == 1 && Breaks(HungDevice(Placed(s, r), r), Root, At(r.parent))
  }

  // The i-th listed address is not below the device, and hanging it there breaks.
  ghost predicate ListedBreaks(s: Mesh, d: Id, table: seq<Mac>, i: nat)
    requires Sound(s) && d in s.kids && i < |table|
  {
    var t := AddBelow(s, d, table[..i]);
    && t.intact && !Below(t.mesh.kids, d, At(table[i]))
    && Breaks(Cut(Known(t.mesh, table[i]), At(table[i])), d, At(table[i]))
  }

  ghost predicate TableBreaks(s: Mesh, r: Report) {
    && Placeable(s, r) && Joins(s, r) && Sound(Pruned(s, r).mesh) && At(r.mac) in Pruned(s, r).mesh.kids
    && exists i: nat :: i < |r.table| && ListedBreaks(Pruned(s, r).mesh, At(r.mac), r.table, i)
  }

  lemma OneBreaks(s: Mesh, d: Id, a: Mac)
    requires Sound(s) && d in s.kids && !Below(s.kids, d, At(a))
    ensures Breaks(Cut(Known(s, a), At(a)), d, At(a)) <==> !HangsSafely(s.kids, d, a)
  {
    hide IsForest, Cut, HangsSafely, Owned, Reach;
    RehangReady(s, d, a);
    KnownForest(s, a);
    CutSound(Known(s, a), At(a));
  }

  // Going on after the first i addresses
  lemma {:induction false} AddBelowSplit(s: Mesh, d: Id, table: seq<Mac>, i: nat)
    requires Sound(s) && d in s.kids && i <= |table|
    ensures var t := AddBelow(s, d, table[..i]);
            && d in t.mesh.kids
            && AddBelow(s, d, table).intact == (t.intact && AddBelow(t.mesh, d, table[i..]).intact)
    decreases |table|
  {
    hide Rehang, HangsSafely, IsForest, Below;
    if i == 0 {
      assert table[..0] == [] && table[0..] == table;
    } else if HangsSafely(s.kids, d, table[0]) {
      RehangSafe(s, d, table[0]);
      AddBelowSplit(Rehang(s, d, table[0]), d, table[1..], i - 1);
      assert table[..i][1..] == table[1..][..i - 1] && table[1..][i - 1..] == table[i..];
    }
  }

  lemma {:induction false} TableExact(s: Mesh, d: Id, table: seq<Mac>, i: nat)
    requires Sound(s) && d in s.kids && i <= |table| && AddBelow(s, d, table[..i]).intact
    ensures !AddBelow(s, d, table).intact <==> exists j: nat :: i <= j < |table| && ListedBreaks(s, d, table, j)
    decreases |table| - i
  {
    hide HangsSafely, IsForest, Below, Rehang, Breaks, Cut, Known;
    AddBelowSplit(s, d, table, i);
    if i == |table| {
      assert table[..i] == table;
    } else {
      var t, a := AddBelow(s, d, table[..i]).mesh, table[i];
      AddBelowSplit(s, d, table[..i + 1], i);
      assert table[..i + 1][..i] == table[..i] && table[..i + 1][i..] == [a];
      OneStep(t, d, a);
      if HangsSafely(t.kids, d, a) {
        TableExact(s, d, table, i + 1);
      } else {
        AddBelowSplit(s, d, table, i + 1);
      }
      assert ListedBreaks(s, d, table, i) <==> !HangsSafely(t.kids, d, a);
    }
  }

  lemma OneStep(s: Mesh, d: Id, a: Mac)
    requires Sound(s) && d in s.kids
    ensures AddBelow(s, d, [a]).intact <==> HangsSafely(s.kids, d, a)
    ensures !HangsSafely(s.kids, d, a) <==>
            !Below(s.kids, d, At(a)) && Breaks(Cut(Known(s, a), At(a)), d, At(a))
  {
    hide IsForest, Cut, Known, Breaks;
    if !Below(s.kids, d, At(a)) {
      OneBreaks(s, d, a);
    }
    if HangsSafely(s.kids, d, a) {
      RehangSafe(s, d, a);
      assert [a][1..] == [];
    }
  }

  lemma RouterExact(s: Mesh, r: Report)
    requires Sound(s) && CanHang(Placed(s, r).kids, At(r.parent), At(r.mac))
    ensures At(r.parent) in Placed(s, r).layer
    ensures !Placeable(s, r) <==> RouterBreaks(s, r)
  {
    hide Acyclic, Single, Reach, Take;
    PlacedSound(s, r);
    var s1, p, d := Placed(s, r), At(r.parent), At(r.mac);
    SelfHang(s1.kids, p, d);
    HangTakes(s1, p, d);
    TakeSound(s1, p, d);
    var h := HungDevice(s1, r);
    UnderRoot(h, p);
    RouterNone(s1, p, d);
    if Owned(h.kids, p) {
      var q := Owner(h.kids, p);
      if q != Root { ForestRoot(h, p, q); }
    } else {
      assert p !in h.kids[Root];
    }
  }

  lemma ForestRoot(s: Mesh, p: Id, q: Id)
    requires Sound(s) && q in s.kids && p in s.kids[q] && q != Root
    ensures Owned(s.kids, p) && p !in s.kids[Root]
  {
  }

  // Every pointer write leaves a forest.
  ghost predicate Whole(s: Mesh, r: Report) {
    Placeable(s, r) && Joins(s, r) && Grown(s, r).intact
  }

  // That is so exactly when none of the add_child calls breaks.
  lemma WholeExact(s: Mesh, r: Report)
    requires Sound(s)
    ensures Whole(s, r) <==> !DeviceBreaks(s, r) && !RouterBreaks(s, r) && !TableBreaks(s, r)
  {
    hide IsForest, CanHang, AddBelow, Prune, ListedBreaks, HungDevice, Hung, TailsOf, Reach;
    PlacedSound(s, r);
    if CanHang(Placed(s, r).kids, At(r.parent), At(r.mac)) {
      RouterExact(s, r);
      if Placeable(s, r) {
        PlaceableJoins(s, r);
        HungSound(s, r);
        var t, d := Pruned(s, r).mesh, At(r.mac);
        AddBelowNone(t, d);
        assert r.table[..0] == [];
        TableExact(t, d, r.table, 0);
      }
    }
  }

  lemma AddBelowNone(s: Mesh, d: Id)
    requires Sound(s) && d in s.kids
    ensures AddBelow(s, d, []).intact && AddBelow(s, d, []).mesh == s
  {
  }
}
