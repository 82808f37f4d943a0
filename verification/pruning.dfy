/** What one pass of remove_descendent leaves of every list below the device. */
module Pruning {
  import opened Addresses
  import opened Forest
  import opened Topology
  import opened Effects
  import opened Reports
  import opened Contract

  predicate Listed(c: Id, table: seq<Mac>) {
    c.At? && c.addr in table
  }

  // The members the loop over a list comes to: those up to the first unlisted one
  function Scanned(l: seq<Id>, table: seq<Mac>): seq<Id> {
    if l == [] then [] else [l[0]] + if Listed(l[0], table) then Scanned(l[1..], table) else []
  }

  lemma {:induction false} ScannedIn(l: seq<Id>, table: seq<Mac>, c: Id)
    requires c in Scanned(l, table)
    ensures c in l
  {
    if l != [] && c != l[0] {
      ScannedIn(l[1..], table, c);
    }
  }

  // The nodes whose lists the pass below x goes through
  ghost predicate Visited(k: Kids, r: map<Id, nat>, x: Id, table: seq<Mac>, v: Id)
    requires Ranked(k, r) && x in k
    decreases r[x]
  {
    v == x || exists c :: c in Scanned(k[x], table) && VisitedBy(k, r, x, c, table, v)
  }

  ghost predicate VisitedBy(k: Kids, r: map<Id, nat>, x: Id, c: Id, table: seq<Mac>, v: Id)
    requires Ranked(k, r) && x in k
    decreases r[x], 0
  {
    c in k && r[c] < r[x] && Visited(k, r, c, table, v)
  }

  // The same for the members from the i-th on
  ghost predicate VisitedFrom(k: Kids, r: map<Id, nat>, x: Id, i: nat, table: seq<Mac>, v: Id)
    requires Ranked(k, r) && x in k && i <= |k[x]|
  {
    v == x || exists c :: c in Scanned(k[x][i..], table) && VisitedBy(k, r, x, c, table, v)
  }

  // The member a list loses: the first unlisted one
  predicate Lost(l: seq<Id>, table: seq<Mac>, u: Id) {
    u in Scanned(l, table) && !Listed(u, table)
  }

  // u is lost by a list the pass goes through.
  ghost predicate Dropped(k: Kids, r: map<Id, nat>, x: Id, i: nat, table: seq<Mac>, u: Id)
    requires Ranked(k, r) && x in k && i <= |k[x]|
  {
    || Lost(k[x][i..], table, u)
    || exists v :: v in k && v != x && VisitedFrom(k, r, x, i, table, v) && Lost(k[v], table, u)
  }

  lemma {:induction false} VisitedReach(k: Kids, r: map<Id, nat>, x: Id, table: seq<Mac>, v: Id)
    requires Ranked(k, r) && x in k && Visited(k, r, x, table, v)
    ensures Reach(k, x, v)
    decreases r[x]
  {
    if v == x {
      ReachSelf(k, x);
    } else {
      var c :| c in Scanned(k[x], table) && VisitedBy(k, r, x, c, table, v);
      ScannedIn(k[x], table, c);
      VisitedReach(k, r, c, table, v);
      ReachVia(k, x, c, v);
    }
  }

  // What is visited depends on the lists below x only.
  lemma {:induction false} VisitedSame(k: Kids, k': Kids, r: map<Id, nat>, x: Id, table: seq<Mac>, v: Id)
    requires Ranked(k, r) && Ranked(k', r) && x in k && x in k'
    requires forall z :: Reach(k, x, z) && z in k ==> z in k' && k'[z] == k[z]
    ensures Visited(k, r, x, table, v) <==> Visited(k', r, x, table, v)
    decreases r[x]
  {
    hide Reach;
    ReachSelf(k, x);
    forall c | c in Scanned(k[x], table)
      ensures VisitedBy(k, r, x, c, table, v) <==> VisitedBy(k', r, x, c, table, v)
    {
      ScannedIn(k[x], table, c);
      forall z | Reach(k, c, z)
        ensures Reach(k, x, z)
      {
        ReachVia(k, x, c, z);
      }
      VisitedSame(k, k', r, c, table, v);
    }
  }

  /* The pass changes lists below the members it comes to, and x's own, only */

  ghost predicate Outside(k: Kids, x: Id, i: nat, y: Id)
    requires x in k && i <= |k[x]|
  {
    y != x && forall j :: i <= j < |k[x]| ==> !Reach(k, k[x][j], y)
  }

  lemma NotReached(k': Kids, k: Kids, c: Id, y: Id)
    requires Fewer(k', k) && !Reach(k, c, y)
    ensures !Reach(k', c, y)
  {
    if Reach(k', c, y) {
      FewerReach(k', k, c, y);
    }
  }

  lemma OutsideFewer(k: Kids, k': Kids, x: Id, i: nat, y: Id)
    requires Fewer(k', k) && x in k && i <= |k[x]| && x in k' && k'[x] == k[x] && Outside(k, x, i, y)
    ensures Outside(k', x, i, y)
  {
    forall j | i <= j < |k[x]|
      ensures !Reach(k', k[x][j], y)
    {
      NotReached(k', k, k[x][j], y);
    }
  }

  lemma OutsideMember(k: Kids, x: Id, c: Id, y: Id)
    requires Closed(k) && x in k && c in k[x] && !Reach(k, c, y)
    ensures c in k && Outside(k, c, 0, y)
  {
    ReachSelf(k, c);
    forall j | 0 <= j < |k[c]|
      ensures !Reach(k, k[c][j], y)
    {
      if Reach(k, k[c][j], y) {
        ReachVia(k, c, k[c][j], y);
      }
    }
  }

  lemma OutsideNext(k: Kids, x: Id, i: nat, y: Id)
    requires x in k && i < |k[x]| && Outside(k, x, i, y)
    ensures y != x && !Reach(k, k[x][i], y) && Outside(k, x, i + 1, y)
  {
  }

  // The list that loses c, and those reset with it, aside, lists stay.
  lemma DropChildList(s: Mesh, x: Id, c: Id, y: Id)
    requires Sound(s) && x in s.kids && c in s.kids[x] && y in s.kids && y != x
    ensures var k' := DropChild(s, x, c).kids;
            y in k' && (k'[y] == s.kids[y] || (k'[y] == [] && Reach(s.kids, c, y)))
  {
    hide IsForest, Reach;
    DropChildSound(s, x, c);
    if !Reach(s.kids, c, y) {
      DropChildFrame(s, x, c, y);
    }
  }

  lemma {:induction false} PruneOutside(s: Mesh, r: map<Id, nat>, x: Id, i: nat, table: seq<Mac>, y: Id)
    requires Sound(s) && Ranked(s.kids, r) && x in s.kids && i <= |s.kids[x]| && y in s.kids
    requires Outside(s.kids, x, i, y)
    ensures var k' := PruneFrom(s, r, x, i, table).mesh.kids; y in k' && k'[y] == s.kids[y]
    decreases r[x], |s.kids[x]| - i
  {
    hide IsForest, Reach, DropChild, Fewer, SameAbove, Outside, Closed, Sound;
    if i < |s.kids[x]| {
      var c := s.kids[x][i];
      assert c in s.kids[x];
      var inner := Prune(s, r, c, table).mesh;
      LinkRank(s, r, x, c);
      PrunedInside(s, r, x, c, table);
      OutsideNext(s.kids, x, i, y);
      ForestSingle(s);
      OutsideMember(s.kids, x, c, y);
      PruneOutside(s, r, c, 0, table, y);
      PruneIs(s, r, c, table);
      if c.addr in table {
        OutsideFewer(s.kids, inner.kids, x, i + 1, y);
        PruneOutside(inner, r, x, i + 1, table, y);
      } else {
        NotReached(inner.kids, s.kids, c, y);
        DropChildList(inner, x, c, y);
        DropChildFrame(inner, x, c, y);
      }
    }
  }

  /* What becomes of the list of y */

  ghost predicate Left(k: Kids, k': Kids, r: map<Id, nat>, x: Id, i: nat, table: seq<Mac>, y: Id)
    requires Ranked(k, r) && x in k && i <= |k[x]| && y in k
  {
    && y in k'
    && (|| k'[y] == (if y == x then k[x][..i] + TrimFirst(k[x][i..], table)
                     else if VisitedFrom(k, r, x, i, table, y) then TrimFirst(k[y], table)
                     else k[y])
        || (k'[y] == [] && exists u :: Dropped(k, r, x, i, table, u) && Reach(k, u, y)))
  }

  // Distinct members of one list have nothing below them in common.
  lemma SiblingsApart(k: Kids, x: Id, c: Id, d: Id, y: Id)
    requires IsForest(k) && x in k && c in k[x] && d in k[x] && Reach(k, c, y) && Reach(k, d, y)
    ensures c == d && y != x
  {
    LinkNoBack(k, x, c);
    Comparable(k, c, d, y);
    if c != d {
      if Reach(k, c, d) {
        ReachOwner(k, c, x, d);
      } else {
        ReachOwner(k, d, x, c);
        LinkNoBack(k, x, d);
      }
    }
  }

  lemma MembersApart(s: Mesh, x: Id, i: nat, y: Id)
    requires Sound(s) && x in s.kids && i < |s.kids[x]| && Reach(s.kids, s.kids[x][i], y)
    ensures y != x && Outside(s.kids, x, i + 1, y)
  {
    var l := s.kids[x];
    assert l[i] in l;
    SiblingsApart(s.kids, x, l[i], l[i], y);
    forall j | i + 1 <= j < |l|
      ensures !Reach(s.kids, l[j], y)
    {
      assert Apart(l, i, j) && l[j] in l;
      if Reach(s.kids, l[j], y) {
        SiblingsApart(s.kids, x, l[i], l[j], y);
      }
    }
  }

  lemma ScannedNext(l: seq<Id>, i: nat, table: seq<Mac>)
    requires i < |l|
    ensures l[i] in Scanned(l[i..], table)
    ensures forall c :: c in Scanned(l[i..], table) <==>
              c == l[i] || (Listed(l[i], table) && c in Scanned(l[i + 1..], table))
  {
    assert l[i..][1..] == l[i + 1..];
  }

  lemma ScannedAt(l: seq<Id>, i: nat, table: seq<Mac>, c: Id) returns (j: nat)
    requires i <= |l| && c in Scanned(l[i..], table)
    ensures i <= j < |l| && l[j] == c
  {
    ScannedIn(l[i..], table, c);
    var n :| 0 <= n < |l[i..]| && l[i..][n] == c;
    j := i + n;
  }

  // A node below the i-th member is visited from there on exactly when it is visited from that member.
  lemma VisitedHere(s: Mesh, r: map<Id, nat>, x: Id, i: nat, table: seq<Mac>, y: Id)
    requires Sound(s) && Ranked(s.kids, r) && x in s.kids && i < |s.kids[x]|
    requires var c := s.kids[x][i]; c in s.kids && r[c] < r[x] && Reach(s.kids, c, y)
    ensures VisitedFrom(s.kids, r, x, i, table, y) <==> VisitedFrom(s.kids, r, s.kids[x][i], 0, table, y)
  {
    hide IsForest, Reach, Visited;
    var k, c := s.kids, s.kids[x][i];
    MembersApart(s, x, i, y);
    ScannedNext(k[x], i, table);
    VisitedAll(k, r, c, table, y);
    forall d | d in Scanned(k[x][i..], table)
      ensures VisitedBy(k, r, x, d, table, y) ==> d == c
    {
      if VisitedBy(k, r, x, d, table, y) {
        VisitedReach(k, r, d, table, y);
        var _ := ScannedAt(k[x], i, table, d);
        SiblingsApart(k, x, c, d, y);
      }
    }
    assert VisitedBy(k, r, x, c, table, y) <==> Visited(k, r, c, table, y);
  }

  lemma VisitedAll(k: Kids, r: map<Id, nat>, x: Id, table: seq<Mac>, y: Id)
    requires Ranked(k, r) && x in k
    ensures VisitedFrom(k, r, x, 0, table, y) <==> Visited(k, r, x, table, y)
  {
    assert k[x][0..] == k[x];
  }

  // A node not below the i-th member is visited from there on exactly when it is visited from the next on,
  // also once the i-th has been pruned.
  lemma VisitedLater(s: Mesh, r: map<Id, nat>, x: Id, i: nat, table: seq<Mac>, y: Id, inner: Mesh)
    requires Sound(s) && Ranked(s.kids, r) && x in s.kids && i < |s.kids[x]|
    requires s.kids[x][i] in s.kids && r[s.kids[x][i]] < r[x] && Listed(s.kids[x][i], table)
    requires !Reach(s.kids, s.kids[x][i], y) && inner == Prune(s, r, s.kids[x][i], table).mesh
    requires Ranked(inner.kids, r) && x in inner.kids && inner.kids[x] == s.kids[x]
    ensures VisitedFrom(s.kids, r, x, i, table, y) <==> VisitedFrom(inner.kids, r, x, i + 1, table, y)
  {
    hide IsForest, Reach, Visited, Prune;
    var k, l, c := s.kids, s.kids[x], s.kids[x][i];
    ScannedNext(l, i, table);
    if VisitedBy(k, r, x, c, table, y) {
      VisitedReach(k, r, c, table, y);
    }
    forall d | d in Scanned(l[i + 1..], table)
      ensures VisitedBy(k, r, x, d, table, y) <==> VisitedBy(inner.kids, r, x, d, table, y)
    {
      var j := ScannedAt(l, i + 1, table, d);
      assert d in l;
      LinkRank(s, r, x, d);
      forall z | Reach(k, d, z) && z in k
        ensures z in inner.kids && inner.kids[z] == k[z]
      {
        LaterKept(s, r, x, i, j, table, z);
      }
      ReachSelf(k, d);
      VisitedSame(k, inner.kids, r, d, table, y);
    }
  }

  // Pruning below the i-th member leaves lists below a later one.
  lemma LaterKept(s: Mesh, r: map<Id, nat>, x: Id, i: nat, j: nat, table: seq<Mac>, z: Id)
    requires Sound(s) && Ranked(s.kids, r) && x in s.kids && i < j < |s.kids[x]| && z in s.kids
    requires Reach(s.kids, s.kids[x][j], z)
    ensures var c := s.kids[x][i];
            c in s.kids && z in Prune(s, r, c, table).mesh.kids && Prune(s, r, c, table).mesh.kids[z] == s.kids[z]
  {
    hide IsForest, Reach, Outside, PruneFrom;
    var l, c := s.kids[x], s.kids[x][i];
    assert c in l && l[j] in l;
    LinkRank(s, r, x, c);
    ForestSingle(s);
    ForestDistinct(s, x);
    NotEarlier(s, x, i, j, z);
    OutsideMember(s.kids, x, c, z);
    PruneOutside(s, r, c, 0, table, z);
    PruneIs(s, r, c, table);
  }

  lemma NotEarlier(s: Mesh, x: Id, i: nat, j: nat, z: Id)
    requires Sound(s) && x in s.kids && i < j < |s.kids[x]| && Reach(s.kids, s.kids[x][j], z)
    ensures !Reach(s.kids, s.kids[x][i], z)
  {
    var l := s.kids[x];
    assert Apart(l, i, j) && l[i] in l && l[j] in l;
    if Reach(s.kids, l[i], z) {
      SiblingsApart(s.kids, x, l[i], l[j], z);
    }
  }

  /* The whole pass */

  lemma DroppedHere(s: Mesh, r: map<Id, nat>, x: Id, i: nat, table: seq<Mac>, u: Id)
    requires Sound(s) && Ranked(s.kids, r) && x in s.kids && i < |s.kids[x]|
    requires var c := s.kids[x][i]; c in s.kids && r[c] < r[x] && Dropped(s.kids, r, c, 0, table, u)
    ensures Dropped(s.kids, r, x, i, table, u)
  {
    hide IsForest, Reach, Visited, Lost;
    var k, c := s.kids, s.kids[x][i];
    assert c in k[x];
    assert k[c][0..] == k[c];
    ReachSelf(k, c);
    MembersApart(s, x, i, c);
    VisitedHere(s, r, x, i, table, c);
    if !Lost(k[c], table, u) {
      var v :| v in k && v != c && VisitedFrom(k, r, c, 0, table, v) && Lost(k[v], table, u);
      VisitedAll(k, r, c, table, v);
      VisitedReach(k, r, c, table, v);
      MembersApart(s, x, i, v);
      VisitedHere(s, r, x, i, table, v);
    }
  }

  lemma DroppedLater(s: Mesh, r: map<Id, nat>, x: Id, i: nat, table: seq<Mac>, u: Id, inner: Mesh)
    requires Sound(s) && Ranked(s.kids, r) && x in s.kids && i < |s.kids[x]|
    requires s.kids[x][i] in s.kids && r[s.kids[x][i]] < r[x] && Listed(s.kids[x][i], table)
    requires inner == Prune(s, r, s.kids[x][i], table).mesh && Fewer(inner.kids, s.kids)
    requires Ranked(inner.kids, r) && x in inner.kids && inner.kids[x] == s.kids[x] && Sound(inner)
    requires Dropped(inner.kids, r, x, i + 1, table, u)
    ensures Dropped(s.kids, r, x, i, table, u)
  {
    hide IsForest, Reach, Visited, VisitedFrom, Prune, Outside;
    var k, l, c := s.kids, s.kids[x], s.kids[x][i];
    assert c in l;
    ScannedNext(l, i, table);
    if !Lost(l[i + 1..], table, u) {
      var v :| v in inner.kids && v != x && VisitedFrom(inner.kids, r, x, i + 1, table, v)
               && Lost(inner.kids[v], table, u);
      LaterVisit(s, r, x, i, table, v, inner);
    }
  }

  lemma LaterVisit(s: Mesh, r: map<Id, nat>, x: Id, i: nat, table: seq<Mac>, v: Id, inner: Mesh)
    requires Sound(s) && Ranked(s.kids, r) && x in s.kids && i < |s.kids[x]|
    requires s.kids[x][i] in s.kids && r[s.kids[x][i]] < r[x] && Listed(s.kids[x][i], table)
    requires inner == Prune(s, r, s.kids[x][i], table).mesh && Fewer(inner.kids, s.kids)
    requires Ranked(inner.kids, r) && x in inner.kids && inner.kids[x] == s.kids[x]
    requires v in inner.kids && v != x && VisitedFrom(inner.kids, r, x, i + 1, table, v)
    ensures v in s.kids && inner.kids[v] == s.kids[v] && VisitedFrom(s.kids, r, x, i, table, v)
  {
    hide IsForest, Reach, Visited, Prune;
    var d :| d in Scanned(s.kids[x][i + 1..], table) && VisitedBy(inner.kids, r, x, d, table, v);
    var j := ScannedAt(s.kids[x], i + 1, table, d);
    VisitedReach(inner.kids, r, d, table, v);
    FewerReach(inner.kids, s.kids, d, v);
    LaterKept(s, r, x, i, j, table, v);
    NotEarlier(s, x, i, j, v);
    VisitedLater(s, r, x, i, table, v, inner);
  }

  lemma LeftNone(k: Kids, r: map<Id, nat>, x: Id, table: seq<Mac>, y: Id)
    requires Ranked(k, r) && x in k && y in k
    ensures Left(k, k, r, x, |k[x]|, table, y)
  {
    TrimNone(k[x], table);
  }

  // Below the i-th member, the pass over that member decides.
  lemma LeftHere(s: Mesh, r: map<Id, nat>, x: Id, i: nat, table: seq<Mac>, y: Id, k1: Kids, k': Kids)
    requires Sound(s) && Ranked(s.kids, r) && x in s.kids && i < |s.kids[x]| && y in s.kids
    requires s.kids[x][i] in s.kids && r[s.kids[x][i]] < r[x] && Reach(s.kids, s.kids[x][i], y)
    requires Left(s.kids, k1, r, s.kids[x][i], 0, table, y)
    requires y in k' && (k'[y] == k1[y] || (k'[y] == [] && !Listed(s.kids[x][i], table)))
    ensures Left(s.kids, k', r, x, i, table, y)
  {
    hide IsForest, Reach, Visited, VisitedFrom, Dropped;
    var k, c := s.kids, s.kids[x][i];
    MembersApart(s, x, i, y);
    VisitedHere(s, r, x, i, table, y);
    ScannedNext(k[x], i, table);
    var none: seq<Id> := [];
    assert k[c][..0] == none && k[c][0..] == k[c] && none + TrimFirst(k[c], table) == TrimFirst(k[c], table);
    SelfVisited(k, r, c, 0, table);
    if k'[y] != k1[y] {
      HereDropped(k, r, x, i, table);
    } else if u :| Dropped(k, r, c, 0, table, u) && Reach(k, u, y) {
      DroppedHere(s, r, x, i, table, u);
    }
  }

  lemma SelfVisited(k: Kids, r: map<Id, nat>, x: Id, i: nat, table: seq<Mac>)
    requires Ranked(k, r) && x in k && i <= |k[x]|
    ensures VisitedFrom(k, r, x, i, table, x)
  {
  }

  lemma HereDropped(k: Kids, r: map<Id, nat>, x: Id, i: nat, table: seq<Mac>)
    requires Ranked(k, r) && x in k && i < |k[x]| && !Listed(k[x][i], table)
    ensures Dropped(k, r, x, i, table, k[x][i])
  {
    ScannedNext(k[x], i, table);
  }

  // Elsewhere, a pass that ends here has come to nothing, and one that goes on decides later.
  lemma LeftStops(s: Mesh, r: map<Id, nat>, x: Id, i: nat, table: seq<Mac>, y: Id, k': Kids)
    requires Sound(s) && Ranked(s.kids, r) && x in s.kids && i < |s.kids[x]| && y in s.kids && y != x
    requires s.kids[x][i] in s.kids && r[s.kids[x][i]] < r[x] && !Reach(s.kids, s.kids[x][i], y)
    requires !Listed(s.kids[x][i], table) && y in k' && k'[y] == s.kids[y]
    ensures Left(s.kids, k', r, x, i, table, y)
  {
    hide IsForest, Reach, Visited, Dropped;
    ScannedNext(s.kids[x], i, table);
    if VisitedBy(s.kids, r, x, s.kids[x][i], table, y) {
      VisitedReach(s.kids, r, s.kids[x][i], table, y);
    }
  }

  lemma LeftLater(s: Mesh, r: map<Id, nat>, x: Id, i: nat, table: seq<Mac>, y: Id, inner: Mesh, k': Kids)
    requires Sound(s) && Ranked(s.kids, r) && x in s.kids && i < |s.kids[x]| && y in s.kids && y != x
    requires s.kids[x][i] in s.kids && r[s.kids[x][i]] < r[x] && Listed(s.kids[x][i], table)
    requires !Reach(s.kids, s.kids[x][i], y)
    requires inner == Prune(s, r, s.kids[x][i], table).mesh && Fewer(inner.kids, s.kids) && Sound(inner)
    requires Ranked(inner.kids, r) && x in inner.kids && inner.kids[x] == s.kids[x]
    requires y in inner.kids && inner.kids[y] == s.kids[y] && Left(inner.kids, k', r, x, i + 1, table, y)
    ensures Left(s.kids, k', r, x, i, table, y)
  {
    hide IsForest, Reach, Visited, VisitedFrom, Dropped, Prune;
    VisitedLater(s, r, x, i, table, y, inner);
    if u :| Dropped(inner.kids, r, x, i + 1, table, u) && Reach(inner.kids, u, y) {
      DroppedLater(s, r, x, i, table, u, inner);
      FewerReach(inner.kids, s.kids, u, y);
    }
  }

  // After the pass the list of a visited node has lost its first unlisted member, and every other list is as
  // it was; only at or below a lost member lists may be empty instead, as its first-child spine is reset.
  lemma {:induction false} PruneLists(s: Mesh, r: map<Id, nat>, x: Id, i: nat, table: seq<Mac>, y: Id)
    requires Sound(s) && Ranked(s.kids, r) && x in s.kids && i <= |s.kids[x]| && y in s.kids
    ensures Left(s.kids, PruneFrom(s, r, x, i, table).mesh.kids, r, x, i, table, y)
    decreases r[x], |s.kids[x]| - i
  {
    hide IsForest, Reach, DropChild, Fewer, SameAbove, Outside, Closed, Left, Prune, PruneFrom, Sound;
    var k' := PruneFrom(s, r, x, i, table).mesh.kids;
    if y == x {
      PruneOwnList(s, r, x, i, table);
      LeftOwn(s.kids, k', r, x, i, table);
    } else if i == |s.kids[x]| {
      PruneEnd(s, r, x, table);
      LeftNone(s.kids, r, x, table, y);
    } else {
      var c := s.kids[x][i];
      assert c in s.kids[x];
      var inner := Prune(s, r, c, table).mesh;
      LinkRank(s, r, x, c);
      PrunedInside(s, r, x, c, table);
      PruneIs(s, r, c, table);
      PruneStep(s, r, x, i, table);
      InnerKeeps(s, r, x, i, table, y);
      if Reach(s.kids, c, y) {
        PruneLists(s, r, c, 0, table, y);
      }
      if c.addr !in table {
        LastMember(s, r, x, i, table, y);
      } else if Reach(s.kids, c, y) {
        MembersApart(s, x, i, y);
        OutsideFewer(s.kids, inner.kids, x, i + 1, y);
        PruneOutside(inner, r, x, i + 1, table, y);
        LeftHere(s, r, x, i, table, y, inner.kids, k');
      } else {
        PruneLists(inner, r, x, i + 1, table, y);
        LeftLater(s, r, x, i, table, y, inner, k');
      }
    }
  }

  lemma PruneEnd(s: Mesh, r: map<Id, nat>, x: Id, table: seq<Mac>)
    requires Sound(s) && Ranked(s.kids, r) && x in s.kids
    ensures PruneFrom(s, r, x, |s.kids[x]|, table).mesh == s
  {
  }

  lemma PruneStep(s: Mesh, r: map<Id, nat>, x: Id, i: nat, table: seq<Mac>)
    requires Sound(s) && Ranked(s.kids, r) && x in s.kids && i < |s.kids[x]|
    ensures s.kids[x][i] in s.kids && s.kids[x][i] != Root
    ensures var inner := Prune(s, r, s.kids[x][i], table).mesh;
            && Sound(inner) && Ranked(inner.kids, r) && x in inner.kids && inner.kids[x] == s.kids[x]
            && (s.kids[x][i].addr in table ==>
                  PruneFrom(s, r, x, i, table).mesh == PruneFrom(inner, r, x, i + 1, table).mesh)
  {
    hide IsForest, SameAbove, DropChild;
    var c := s.kids[x][i];
    assert c in s.kids[x];
    LinkRank(s, r, x, c);
    PrunedInside(s, r, x, c, table);
  }

  // The member at which the pass over x's list ends
  lemma LastMember(s: Mesh, r: map<Id, nat>, x: Id, i: nat, table: seq<Mac>, y: Id)
    requires Sound(s) && Ranked(s.kids, r) && x in s.kids && i < |s.kids[x]| && y in s.kids && y != x
    requires s.kids[x][i] in s.kids && s.kids[x][i] != Root && s.kids[x][i].addr !in table
    requires Reach(s.kids, s.kids[x][i], y) ==>
               Left(s.kids, Prune(s, r, s.kids[x][i], table).mesh.kids, r, s.kids[x][i], 0, table, y)
    ensures Left(s.kids, PruneFrom(s, r, x, i, table).mesh.kids, r, x, i, table, y)
  {
    hide IsForest, Reach, DropChild, Fewer, SameAbove, Left;
    var c := s.kids[x][i];
    assert c in s.kids[x];
    var inner, k' := Prune(s, r, c, table).mesh, PruneFrom(s, r, x, i, table).mesh.kids;
    LinkRank(s, r, x, c);
    PrunedInside(s, r, x, c, table);
    InnerKeeps(s, r, x, i, table, y);
    DropChildList(inner, x, c, y);
    if Reach(s.kids, c, y) {
      LeftHere(s, r, x, i, table, y, inner.kids, k');
    } else {
      NotReached(inner.kids, s.kids, c, y);
      LeftStops(s, r, x, i, table, y, k');
    }
  }

  lemma LeftOwn(k: Kids, k': Kids, r: map<Id, nat>, x: Id, i: nat, table: seq<Mac>)
    requires Ranked(k, r) && x in k && i <= |k[x]| && x in k'
    requires k'[x] == k[x][..i] + TrimFirst(k[x][i..], table)
    ensures Left(k, k', r, x, i, table, x)
  {
  }

  lemma InnerKeeps(s: Mesh, r: map<Id, nat>, x: Id, i: nat, table: seq<Mac>, y: Id)
    requires Sound(s) && Ranked(s.kids, r) && x in s.kids && i < |s.kids[x]| && y in s.kids
    ensures var c := s.kids[x][i];
            c in s.kids && y in Prune(s, r, c, table).mesh.kids
            && (!Reach(s.kids, c, y) ==> Prune(s, r, c, table).mesh.kids[y] == s.kids[y])
  {
    hide IsForest, Reach, Outside, PruneFrom, SameAbove;
    var c := s.kids[x][i];
    assert c in s.kids[x];
    LinkRank(s, r, x, c);
    ForestSingle(s);
    if !Reach(s.kids, c, y) {
      OutsideMember(s.kids, x, c, y);
      PruneOutside(s, r, c, 0, table, y);
      PruneIs(s, r, c, table);
    }
  }

  lemma {:induction false} TrimLoses(l: seq<Id>, table: seq<Mac>, y: Id)
    requires y in l && y !in TrimFirst(l, table)
    ensures Lost(l, table, y)
  {
    if Listed(l[0], table) {
      TrimLoses(l[1..], table, y);
    }
  }

  // The pass unlinks a node only by losing it, or something it hangs below.
  lemma PruneUnlinks(s: Mesh, r: map<Id, nat>, x: Id, table: seq<Mac>, o: Id, y: Id) returns (u: Id)
    requires Sound(s) && Ranked(s.kids, r) && x in s.kids && o in s.kids && y in s.kids[o]
    requires var k' := Prune(s, r, x, table).mesh.kids; !(o in k' && y in k'[o])
    ensures Dropped(s.kids, r, x, 0, table, u) && Reach(s.kids, u, y)
  {
    hide IsForest, Prune, PruneFrom, Visited, VisitedFrom, Lost, TrimFirst, Reach;
    var k, k' := s.kids, Prune(s, r, x, table).mesh.kids;
    PruneIs(s, r, x, table);
    PruneLists(s, r, x, 0, table, o);
    LinkEnds(s, o, y);
    var none: seq<Id> := [];
    assert k[x][..0] == none && k[x][0..] == k[x] && none + TrimFirst(k[x], table) == TrimFirst(k[x], table);
    if k'[o] == [] && exists v :: Dropped(k, r, x, 0, table, v) && Reach(k, v, o) {
      u :| Dropped(k, r, x, 0, table, u) && Reach(k, u, o);
      ReachStep(k, u, o, y);
    } else {
      u := y;
      TrimLoses(k[o], table, y);
      ReachSelf(k, y);
    }
  }

  // A link that disappears was in a list add_child tore, led to or below a node a list lost in the pass as its
  // first unlisted member, or to or below a listed node that was not yet below the device and was re-hung.
  lemma UnlinksOnly(s: Mesh, roots: map<Mac, Endpoint>, r: Report, o: Id, y: Id)
    requires Orderly(s, r) && o in s.kids && y in s.kids[o]
    requires !(o in Update(s, roots, r).mesh.kids && y in Update(s, roots, r).mesh.kids[o])
    ensures var h := Hung(s, r);
            && Sound(h) && At(r.mac) in h.kids
            && (|| o in TailsOf(s, r)
                || (exists u :: Dropped(h.kids, RankOf(h.kids), At(r.mac), 0, r.table, u) && Reach(h.kids, u, y))
                || (exists a :: a in r.table && !Unmoved(Pruned(s, r).mesh.kids, At(r.mac), a, y)))
  {
    hide IsForest, Prune, AddBelow, TableFits, Hung, TailsOf, Dropped, Unmoved, Keeps, Reach, Placed, Pruned,
         Reports.Update, NoneAbove;
    UpdateMesh(s, roots, r);
    var h, d, t := Hung(s, r), At(r.mac), Pruned(s, r).mesh;
    if o !in TailsOf(s, r) {
      HungKeeps(s, r, o, y);
      if !(o in t.kids && y in t.kids[o]) {
        var u := PruneUnlinks(h, RankOf(h.kids), d, r.table, o, y);
      } else if AllUnmoved(t.kids, d, r.table, y) {
        AddBelowKeepsLink(t, d, r.table, o, y);
        KeepsLink(t, Update(s, roots, r).mesh, o, y);
      }
    }
  }
}
