/** The pointer fields of all nodes as one value, and how they carry a forest. */
module Memory {
  import opened Addresses
  import opened Forest
  import opened Topology

  datatype Cell = Cell(layer: int, next: Option<Id>, parent: Option<Id>, children: Option<Id>)
  type Memory = map<Id, Cell>

  const BLANK := Cell(UNDEFINED, None, None, None)

  function Member(l: seq<Id>, i: nat): Option<Id> {
    if i < |l| then Some(l[i]) else None
  }

  // Lists are null-terminated next chains whose members point back to the list's owner.
  // Nothing is asked of next and parent in a node that sits in no list.
  ghost predicate Shape(m: Memory, s: Mesh) {
    && m.Keys == s.kids.Keys == s.layer.Keys
    && (forall x :: x in m ==> m[x].layer == s.layer[x] && m[x].children == Member(s.kids[x], 0))
    && (forall x, i :: x in m && 0 <= i < |s.kids[x]| ==> Linked(m, x, s.kids[x], i))
  }

  predicate Linked(m: Memory, x: Id, l: seq<Id>, i: nat)
    requires i < |l|
  {
    l[i] in m && m[l[i]].parent == Some(x) && m[l[i]].next == Member(l, i + 1)
  }

  /* Torn lists: behind its members, the next chain of a list goes on with nodes that were taken from it */

  // What the chain of a torn list goes on with, by owner
  type Tails = map<Id, seq<Id>>

  // What a walk along x's list meets
  function Walked(k: Kids, t: Tails, x: Id): seq<Id>
    requires x in k
  {
    if x in t then k[x] + t[x] else k[x]
  }

  predicate Chained(m: Memory, l: seq<Id>, i: nat)
    requires i < |l|
  {
    l[i] in m && l[i] != Root && m[l[i]].next == Member(l, i + 1)
  }

  predicate PointsTo(m: Memory, c: Id, x: Id) {
    c in m && m[c].parent == Some(x)
  }

  predicate Head(m: Memory, s: Mesh, t: Tails, x: Id)
    requires x in m && x in s.kids && x in s.layer
  {
    m[x].layer == s.layer[x] && m[x].children == Member(Walked(s.kids, t, x), 0)
  }

  // The first node of a tail points to another parent.
  predicate Stray(m: Memory, t: Tails, o: Id)
    requires o in t
  {
    o in m && t[o] != [] && t[o][0] in m && m[t[o][0]].parent.Some? && m[t[o][0]].parent != Some(o)
  }

  // Shape, but for the tails.
  ghost predicate Torn(m: Memory, s: Mesh, t: Tails) {
    && m.Keys == s.kids.Keys == s.layer.Keys
    && (forall x :: x in m ==> Head(m, s, t, x))
    && (forall x, i: nat :: x in m && i < |Walked(s.kids, t, x)| ==> Chained(m, Walked(s.kids, t, x), i))
    && (forall x, c :: x in m && c in s.kids[x] ==> PointsTo(m, c, x))
    && (forall o :: o in t ==> Stray(m, t, o))
  }

  lemma ShapeTorn(m: Memory, s: Mesh)
    requires Closed(s.kids)
    ensures Shape(m, s) <==> Torn(m, s, map[])
  {
    hide Member;
    if Shape(m, s) {
      forall x, i: nat | x in m && i < |Walked(s.kids, map[], x)|
        ensures Chained(m, Walked(s.kids, map[], x), i)
      {
        assert Linked(m, x, s.kids[x], i) && s.kids[x][i] in s.kids[x];
      }
      forall x, c | x in m && c in s.kids[x]
        ensures PointsTo(m, c, x)
      {
        var i :| 0 <= i < |s.kids[x]| && s.kids[x][i] == c;
        assert Linked(m, x, s.kids[x], i);
      }
    }
    if Torn(m, s, map[]) {
      forall x, i | x in m && 0 <= i < |s.kids[x]|
        ensures Linked(m, x, s.kids[x], i)
      {
        assert Chained(m, Walked(s.kids, map[], x), i) && s.kids[x][i] in s.kids[x];
        assert PointsTo(m, s.kids[x][i], x);
      }
      forall x | x in m
        ensures m[x].layer == s.layer[x] && m[x].children == Member(s.kids[x], 0)
      {
        assert Head(m, s, map[], x);
      }
    }
  }

  // The pointers carry no forest at all.
  ghost predicate NoForest(m: Memory) {
    forall s: Mesh :: Sound(s) ==> !Shape(m, s)
  }

  // A list read as in a forest has the nodes its walk meets.
  lemma {:induction false} WalkRead(m: Memory, s: Mesh, t: Tails, s': Mesh, x: Id, i: nat)
    requires Torn(m, s, t) && Shape(m, s') && x in m && i < |Walked(s.kids, t, x)|
    ensures i < |s'.kids[x]| && s'.kids[x][i] == Walked(s.kids, t, x)[i]
  {
    if i == 0 {
      assert Head(m, s, t, x);
    } else {
      WalkRead(m, s, t, s', x, i - 1);
      assert Chained(m, Walked(s.kids, t, x), i - 1) && Linked(m, x, s'.kids[x], i - 1);
    }
  }

  // As long as one list is torn, there is no forest.
  lemma TornNone(m: Memory, s: Mesh, t: Tails)
    requires Torn(m, s, t) && t != map[]
    ensures NoForest(m)
  {
    hide Sound;
    var o :| o in t;
    forall s': Mesh | Sound(s')
      ensures !Shape(m, s')
    {
      if Shape(m, s') {
        var n := |s.kids[o]|;
        assert Stray(m, t, o);
        assert Walked(s.kids, t, o)[n] == t[o][0];
        WalkRead(m, s, t, s', o, n);
        ShapeParent(m, s', o, n);
      }
    }
  }

  lemma ShapeParent(m: Memory, s: Mesh, x: Id, i: nat)
    requires Shape(m, s) && x in m && i < |s.kids[x]|
    ensures PointsTo(m, s.kids[x][i], x)
  {
    assert Linked(m, x, s.kids[x], i);
  }

  // c is behind the members of no list.
  ghost predicate NoTail(t: Tails, c: Id) {
    forall o :: o in t ==> c !in t[o]
  }

  // No torn list, and no node of a tail, is c's or below it.
  ghost predicate Untorn(k: Kids, t: Tails, c: Id) {
    forall o :: o in t ==> !Reach(k, c, o) && forall y :: y in t[o] ==> !Reach(k, c, y)
  }

  // No torn list is d's or below it.
  ghost predicate Clean(k: Kids, t: Tails, d: Id) {
    forall o :: o in t ==> !Reach(k, d, o)
  }

  // Nor is a node of a tail below it.
  ghost predicate UntornBelow(k: Kids, t: Tails, d: Id) {
    Clean(k, t, d) && forall o, y :: o in t && y in t[o] ==> !Below(k, d, y)
  }

  lemma CleanDown(k: Kids, t: Tails, x: Id, c: Id)
    requires x in k && c in k[x] && Clean(k, t, x)
    ensures Clean(k, t, c)
  {
    forall o | o in t
      ensures !Reach(k, c, o)
    {
      if Reach(k, c, o) { ReachVia(k, x, c, o); }
    }
  }

  lemma UntornDown(k: Kids, t: Tails, x: Id, c: Id)
    requires x in k && c in k[x] && Untorn(k, t, x)
    ensures Untorn(k, t, c)
  {
    forall y | Reach(k, c, y)
      ensures Reach(k, x, y)
    {
      ReachVia(k, x, c, y);
    }
  }

  lemma UntornFewer(k': Kids, k: Kids, t: Tails, c: Id)
    requires Fewer(k', k) && Untorn(k, t, c)
    ensures Untorn(k', t, c)
  {
    forall y | Reach(k', c, y)
      ensures Reach(k, c, y)
    {
      FewerReach(k', k, c, y);
    }
  }

  // What is untorn is in no tail, and neither torn itself.
  lemma UntornSelf(k: Kids, t: Tails, c: Id)
    requires c in k && Untorn(k, t, c)
    ensures NoTail(t, c) && c !in t && Walked(k, t, c) == k[c]
  {
    ReachSelf(k, c);
  }

  // Members below an untorn node
  lemma UntornMember(k: Kids, t: Tails, d: Id, c: Id)
    requires IsForest(k) && d in k && c in k[d] && UntornBelow(k, t, d)
    ensures Untorn(k, t, c) && UntornBelow(k, t, c)
  {
    CleanDown(k, t, d, c);
    forall y | Reach(k, c, y)
      ensures Below(k, d, y)
    {
      ReachVia(k, d, c, y);
      LinkNoBack(k, d, c);
    }
  }

  lemma UntornBelowFewer(k': Kids, k: Kids, t: Tails, d: Id)
    requires Fewer(k', k) && UntornBelow(k, t, d)
    ensures UntornBelow(k', t, d)
  {
    hide Reach, Fewer;
    forall o | o in t
      ensures !Reach(k', d, o) && forall y :: y in t[o] ==> !Below(k', d, y)
    {
      if Reach(k', d, o) { FewerReach(k', k, d, o); }
      forall y | y in t[o] && Below(k', d, y)
        ensures Below(k, d, y)
      {
        FewerReach(k', k, d, y);
      }
    }
  }

  lemma NotBehind(k: Kids, t: Tails, x: Id, i: nat)
    requires x in k && i < |Walked(k, t, x)| && NoTail(t, Walked(k, t, x)[i])
    ensures i < |k[x]| && k[x][i] == Walked(k, t, x)[i] && k[x][i] in k[x]
  {
  }

  function Reset(m: Memory, gone: set<Id>): Memory {
    map y | y in m :: if y in gone then BLANK else m[y]
  }

  lemma OneCell(m: Memory, m': Memory, x: Id)
    requires m.Keys == m'.Keys && x in m
    requires forall i :: i in m && i != x ==> m'[i] == m[i]
    ensures m' == m[x := m'[x]]
  {
  }

  lemma OneMore(m: Memory, m': Memory, x: Id)
    requires m'.Keys == m.Keys + {x}
    requires forall i :: i in m && i != x ==> m'[i] == m[i]
    ensures m' == m[x := m'[x]]
  {
  }

  lemma ResetTwice(m: Memory, gone: set<Id>, x: Id)
    requires x in m
    ensures Reset(m, gone)[x := BLANK] == Reset(m, {x} + gone)
  {
  }

  // The two pointer writes of remove_child.
  function Bypass(m: Memory, x: Id, l: seq<Id>, i: nat): Memory
    requires x in m && i < |l| && l[i] in m && (i > 0 ==> l[i - 1] in m)
  {
    if i == 0 then m[x := m[x].(children := m[l[0]].next)]
    else m[l[i - 1] := m[l[i - 1]].(next := m[l[i]].next)]
  }

  lemma WalkedSkip(k: Kids, t: Tails, x: Id, i: nat)
    requires x in k && i < |k[x]|
    ensures Walked(k[x := Skip(k[x], i)], t, x) == Skip(Walked(k, t, x), i)
    ensures i < |Walked(k, t, x)| && Walked(k, t, x)[i] == k[x][i] && (i > 0 ==> Walked(k, t, x)[i - 1] == k[x][i - 1])
  {
  }

  lemma MemberSkip(l: seq<Id>, i: nat, j: nat)
    requires i < |l|
    ensures Member(Skip(l, i), j) == Member(l, if j < i then j else j + 1)
  {
  }

  lemma SkipAt(l: seq<Id>, i: nat, j: nat)
    requires i < |l| && j < |Skip(l, i)|
    ensures Skip(l, i)[j] == if j < i then l[j] else l[j + 1]
    ensures if j < i then j < |l| else j + 1 < |l|
  {
  }

  // The only place a node of a walk that c does not follow as a tail can have in lists
  lemma PlaceBefore(m: Memory, s: Mesh, t: Tails, x: Id, i: nat, y: Id, j: nat)
    requires Single(s.kids) && Torn(m, s, t) && x in m && y in m && 0 < i < |s.kids[x]| && NoTail(t, s.kids[x][i])
    requires j < |Walked(s.kids, t, y)| && Walked(s.kids, t, y)[j] == s.kids[x][i - 1]
    ensures y == x && j == i - 1
  {
    hide Torn, Walked, NoTail, Distinct;
    TornKeys(m, s, t);
    WalkedSkip(s.kids, t, x, i);
    ChainedAt(m, s, t, y, j);
    ChainedAt(m, s, t, x, i - 1);
    assert s.kids[x][i] in s.kids[x];
    NotBehind(s.kids, t, y, j + 1);
    IndexUnique(s.kids[x], i);
    IndexUnique(s.kids[y], j + 1);
  }

  lemma BypassNext(m: Memory, s: Mesh, t: Tails, x: Id, i: nat, y: Id, j: nat)
    requires Single(s.kids) && Torn(m, s, t) && x in m && y in m && i < |s.kids[x]| && NoTail(t, s.kids[x][i])
    requires Chained(m, Walked(s.kids, t, x), i) && (i > 0 ==> Chained(m, Walked(s.kids, t, x), i - 1))
    requires Walked(s.kids, t, x)[i] == s.kids[x][i] && (i > 0 ==> Walked(s.kids, t, x)[i - 1] == s.kids[x][i - 1])
    requires j < |Walked(s.kids, t, y)|
    ensures var w, m' := Walked(s.kids, t, y), Bypass(m, x, Walked(s.kids, t, x), i);
            && w[j] in m' && w[j] != Root
            && m'[w[j]].next == Member(w, if y == x && j + 1 == i then i + 1 else j + 1)
  {
    hide Single, NoTail, Torn, Walked;
    TornKeys(m, s, t);
    ChainedAt(m, s, t, y, j);
    if i > 0 && Walked(s.kids, t, y)[j] == s.kids[x][i - 1] {
      PlaceBefore(m, s, t, x, i, y, j);
    }
  }

  lemma BypassChained(m: Memory, s: Mesh, t: Tails, x: Id, i: nat, y: Id, w: seq<Id>, j: nat)
    requires Single(s.kids) && Torn(m, s, t) && x in m && y in m && i < |s.kids[x]| && NoTail(t, s.kids[x][i])
    requires i < |Walked(s.kids, t, x)| && Chained(m, Walked(s.kids, t, x), i)
    requires i > 0 ==> Chained(m, Walked(s.kids, t, x), i - 1)
    requires Walked(s.kids, t, x)[i] == s.kids[x][i] && (i > 0 ==> Walked(s.kids, t, x)[i - 1] == s.kids[x][i - 1])
    requires w == (if y == x then Skip(Walked(s.kids, t, x), i) else Walked(s.kids, t, y)) && j < |w|
    ensures Chained(Bypass(m, x, Walked(s.kids, t, x), i), w, j)
  {
    hide Single, NoTail, Torn, Walked, Skip, Member, Bypass;
    TornKeys(m, s, t);
    if y == x {
      SkipAt(Walked(s.kids, t, x), i, j);
      BypassNext(m, s, t, x, i, x, if j < i then j else j + 1);
      MemberSkip(Walked(s.kids, t, x), i, j + 1);
    } else {
      BypassNext(m, s, t, x, i, y, j);
    }
  }

  lemma TornKeys(m: Memory, s: Mesh, t: Tails)
    requires Torn(m, s, t)
    ensures m.Keys == s.kids.Keys == s.layer.Keys
  {
  }

  lemma ChainedAt(m: Memory, s: Mesh, t: Tails, x: Id, i: nat)
    requires Torn(m, s, t) && x in m && i < |Walked(s.kids, t, x)|
    ensures Chained(m, Walked(s.kids, t, x), i)
  {
  }

  lemma BypassFirst(m: Memory, s: Mesh, t: Tails, x: Id, i: nat, y: Id)
    requires Torn(m, s, t) && x in m && i < |Walked(s.kids, t, x)| && y in m
    requires Chained(m, Walked(s.kids, t, x), i) && (i > 0 ==> Chained(m, Walked(s.kids, t, x), i - 1))
    ensures var m' := Bypass(m, x, Walked(s.kids, t, x), i);
            m'.Keys == m.Keys && m'[y].layer == s.layer[y] && m'[y].parent == m[y].parent
            && m'[y].children == Member(if y == x then Skip(Walked(s.kids, t, x), i) else Walked(s.kids, t, y), 0)
  {
    MemberSkip(Walked(s.kids, t, x), i, 0);
    assert Head(m, s, t, y);
  }

  lemma BypassTorn(m: Memory, s: Mesh, t: Tails, x: Id, i: nat)
    requires Sound(s) && Torn(m, s, t) && x in m && i < |s.kids[x]| && NoTail(t, s.kids[x][i])
    ensures var l := Walked(s.kids, t, x);
            l[i] == s.kids[x][i] && l[i] in m && (i > 0 ==> l[i - 1] == s.kids[x][i - 1] && l[i - 1] in m)
            && Torn(Bypass(m, x, l, i), Unlink(s, x, l[i]), t)
  {
    hide Member, Distinct, Skip, Bypass, NoTail, Acyclic, Walked, Torn;
    TornKeys(m, s, t);
    var l := Walked(s.kids, t, x);
    IndexUnique(s.kids[x], i);
    WalkedSkip(s.kids, t, x, i);
    ChainedAt(m, s, t, x, i);
    if i > 0 { ChainedAt(m, s, t, x, i - 1); }
    var m', s' := Bypass(m, x, l, i), Unlink(s, x, l[i]);
    WithoutIs(s.kids[x], l[i]);
    BypassFirst(m, s, t, x, i, x);
    forall y | y in m
      ensures Walked(s'.kids, t, y) == (if y == x then Skip(l, i) else Walked(s.kids, t, y)) && Head(m', s', t, y)
    {
      if y != x { OtherWalk(s.kids, t, x, s'.kids[x], y); }
      BypassFirst(m, s, t, x, i, y);
    }
    forall y, j: nat | y in m' && j < |Walked(s'.kids, t, y)|
      ensures Chained(m', Walked(s'.kids, t, y), j)
    {
      BypassChained(m, s, t, x, i, y, Walked(s'.kids, t, y), j);
    }
    forall y, c | y in m' && c in s'.kids[y]
      ensures PointsTo(m', c, y)
    {
      assert c in s.kids[y];
      OwnParent(m, s, t, y, c);
      BypassFirst(m, s, t, x, i, c);
    }
    forall o | o in t
      ensures Stray(m', t, o)
    {
      OtherParent(m, s, t, o);
      BypassFirst(m, s, t, x, i, t[o][0]);
    }
    TornFrom(m', s', t);
  }

  lemma OwnParent(m: Memory, s: Mesh, t: Tails, x: Id, c: Id)
    requires Torn(m, s, t) && x in m && c in s.kids[x]
    ensures PointsTo(m, c, x)
  {
  }

  lemma OtherParent(m: Memory, s: Mesh, t: Tails, o: Id)
    requires Torn(m, s, t) && o in t
    ensures Stray(m, t, o)
  {
  }

  lemma TornFrom(m: Memory, s: Mesh, t: Tails)
    requires m.Keys == s.kids.Keys == s.layer.Keys
    requires forall x :: x in m ==> Head(m, s, t, x)
    requires forall x, i: nat :: x in m && i < |Walked(s.kids, t, x)| ==> Chained(m, Walked(s.kids, t, x), i)
    requires forall x, c :: x in m && c in s.kids[x] ==> PointsTo(m, c, x)
    requires forall o :: o in t ==> Stray(m, t, o)
    ensures Torn(m, s, t)
  {
  }

  lemma OtherWalk(k: Kids, t: Tails, x: Id, l: seq<Id>, y: Id)
    requires y in k && y != x
    ensures Walked(k[x := l], t, y) == Walked(k, t, y)
  {
  }

  lemma ResetTorn(m: Memory, s: Mesh, t: Tails, c: Id)
    requires Sound(s) && Torn(m, s, t) && c in m && !Owned(s.kids, c) && Untorn(s.kids, t, c)
    ensures Torn(Reset(m, Spine(s.kids, c)), Undo(s, c), t)
  {
    hide Member, Acyclic, Single, Closed, Spine, Walked, Torn, Untorn, Owned, Stray, Chained;
    TornKeys(m, s, t);
    var gone := Spine(s.kids, c);
    var m', s' := Reset(m, gone), Undo(s, c);
    forall y | y in m
      ensures Walked(s'.kids, t, y) == (if y in gone then [] else Walked(s.kids, t, y)) && Head(m', s', t, y)
    {
      ResetHead(m, s, t, c, y);
    }
    forall y, j: nat | y in m' && j < |Walked(s'.kids, t, y)|
      ensures Chained(m', Walked(s'.kids, t, y), j)
    {
      ResetNext(m, s, t, c, y, j);
    }
    forall y, e | y in m' && e in s'.kids[y]
      ensures PointsTo(m', e, y)
    {
      OwnParent(m, s, t, y, e);
      MemberWalked(s.kids, t, y, e);
      NotReset(s, t, c, y, e);
    }
    forall o | o in t
      ensures Stray(m', t, o)
    {
      ResetStray(m, s, t, c, o);
    }
    TornFrom(m', s', t);
  }

  lemma ResetStray(m: Memory, s: Mesh, t: Tails, c: Id, o: Id)
    requires Torn(m, s, t) && Untorn(s.kids, t, c) && o in t
    ensures Stray(Reset(m, Spine(s.kids, c)), t, o)
  {
    hide Torn, Spine, Untorn;
    OtherParent(m, s, t, o);
    TailSpared(s, t, c, o);
  }

  lemma ResetNext(m: Memory, s: Mesh, t: Tails, c: Id, y: Id, j: nat)
    requires Sound(s) && Torn(m, s, t) && !Owned(s.kids, c) && Untorn(s.kids, t, c)
    requires y in m && y !in Spine(s.kids, c) && j < |Walked(s.kids, t, y)|
    ensures Chained(Reset(m, Spine(s.kids, c)), Walked(s.kids, t, y), j)
  {
    hide Torn, Spine, Untorn, Sound, Walked, Member;
    TornKeys(m, s, t);
    ChainedAt(m, s, t, y, j);
    NotReset(s, t, c, y, Walked(s.kids, t, y)[j]);
  }

  lemma ResetHead(m: Memory, s: Mesh, t: Tails, c: Id, y: Id)
    requires Torn(m, s, t) && Untorn(s.kids, t, c) && y in m
    ensures y in Undo(s, c).kids && y in Undo(s, c).layer && y in Reset(m, Spine(s.kids, c))
    ensures Walked(Undo(s, c).kids, t, y) == if y in Spine(s.kids, c) then [] else Walked(s.kids, t, y)
    ensures Head(Reset(m, Spine(s.kids, c)), Undo(s, c), t, y)
  {
    hide Spine, Untorn;
    assert Head(m, s, t, y);
    ResetWalk(s, t, c, y);
  }

  lemma MemberWalked(k: Kids, t: Tails, x: Id, c: Id)
    requires x in k && c in k[x]
    ensures c in Walked(k, t, x)
  {
  }

  lemma TailSpared(s: Mesh, t: Tails, c: Id, o: Id)
    requires Untorn(s.kids, t, c) && o in t && t[o] != []
    ensures o !in Spine(s.kids, c) && t[o][0] !in Spine(s.kids, c)
  {
    hide Spine;
    if o in Spine(s.kids, c) { SpineReach(s.kids, c, o); }
    assert t[o][0] in t[o];
    if t[o][0] in Spine(s.kids, c) { SpineReach(s.kids, c, t[o][0]); }
  }

  lemma ResetWalk(s: Mesh, t: Tails, c: Id, y: Id)
    requires Untorn(s.kids, t, c) && y in s.kids
    ensures y in Undo(s, c).kids
    ensures Walked(Undo(s, c).kids, t, y) == if y in Spine(s.kids, c) then [] else Walked(s.kids, t, y)
  {
    hide Spine;
    if y in Spine(s.kids, c) { SpineReach(s.kids, c, y); }
  }

  // What a list that is not reset goes through is not reset either.
  lemma NotReset(s: Mesh, t: Tails, c: Id, y: Id, e: Id)
    requires Sound(s) && !Owned(s.kids, c) && Untorn(s.kids, t, c) && y in s.kids && y !in Spine(s.kids, c)
    requires e in Walked(s.kids, t, y)
    ensures e !in Spine(s.kids, c)
  {
    if e in Spine(s.kids, c) {
      SpineReach(s.kids, c, e);
      if e in s.kids[y] {
        var n: nat :| SpineAt(s.kids, n, c, e);
        var z := SpineBottom(s.kids, n, c, e);
      }
    }
  }

  lemma KnownTorn(m: Memory, s: Mesh, t: Tails, a: Mac)
    requires Torn(m, s, t) && At(a) !in m
    ensures Torn(m[At(a) := BLANK], Known(s, a), t)
  {
    hide Member, Walked;
    var m', s' := m[At(a) := BLANK], Known(s, a);
    forall y | y in m
      ensures Walked(s'.kids, t, y) == Walked(s.kids, t, y)
    {
      OtherWalk(s.kids, t, At(a), [], y);
    }
    assert At(a) in t ==> Stray(m, t, At(a));
    assert Walked(s'.kids, t, At(a)) == [] && Head(m', s', t, At(a)) by { NewWalk(s.kids, t, At(a)); }
    forall y | y in m
      ensures Head(m', s', t, y)
    {
      assert Head(m, s, t, y);
    }
    forall y, j: nat | y in m' && j < |Walked(s'.kids, t, y)|
      ensures Chained(m', Walked(s'.kids, t, y), j)
    {
      ChainedAt(m, s, t, y, j);
    }
    forall y, c | y in m' && c in s'.kids[y]
      ensures PointsTo(m', c, y)
    {
      assert PointsTo(m, c, y);
    }
    forall o | o in t
      ensures Stray(m', t, o)
    {
      assert Stray(m, t, o);
    }
  }

  lemma NewWalk(k: Kids, t: Tails, x: Id)
    requires x !in t
    ensures Walked(k[x := []], t, x) == [] && Member([], 0) == None
  {
  }

  lemma LayerTorn(m: Memory, s: Mesh, t: Tails, a: Mac, layer: int)
    requires Torn(m, s, t) && At(a) in m
    ensures Torn(m[At(a) := m[At(a)].(layer := layer)], WithLayer(s, a, layer), t)
  {
    hide Member, Walked;
    var m', s' := m[At(a) := m[At(a)].(layer := layer)], WithLayer(s, a, layer);
    forall y | y in m
      ensures Head(m', s', t, y)
    {
      assert Head(m, s, t, y);
    }
    forall y, j: nat | y in m' && j < |Walked(s'.kids, t, y)|
      ensures Chained(m', Walked(s'.kids, t, y), j)
    {
      ChainedAt(m, s, t, y, j);
    }
    forall y, c | y in m' && c in s'.kids[y]
      ensures PointsTo(m', c, y)
    {
      assert PointsTo(m, c, y);
    }
    forall o | o in t
      ensures Stray(m', t, o)
    {
      assert Stray(m, t, o);
    }
  }

  /* add_child: what it writes, and exactly when that leaves a forest */

  // The new cell of y when add_child(p, c) runs over p's list l.
  function Appended(m: Memory, p: Id, c: Id, l: seq<Id>, y: Id): Cell
    requires p in m && y in m
  {
    var b := if y == c then m[y].(parent := Some(p), layer := m[p].layer + 1) else m[y];
    if c in l then b
    else
      var b1 := if l == [] then if y == p then b.(children := Some(c)) else b
                else if y == l[|l| - 1] then b.(next := Some(c)) else b;
      if y == c then b1.(next := None) else b1
  }

  function Append(m: Memory, p: Id, c: Id, l: seq<Id>): Memory
    requires p in m
  {
    map y | y in m :: Appended(m, p, c, l, y)
  }

  // add_child's writes, one cell at a time.
  lemma AppendWrites(m: Memory, p: Id, c: Id, l: seq<Id>)
    requires p in m && c in m && (l != [] ==> l[|l| - 1] in m)
    ensures var m1 := m[c := m[c].(parent := Some(p))];
            var m2 := m1[c := m1[c].(layer := m[p].layer + 1)];
            if c in l then Append(m, p, c, l) == m2
            else if l == [] then
              var m3 := m2[p := m2[p].(children := Some(c))];
              Append(m, p, c, l) == m3[c := m3[c].(next := None)]
            else
              var t := l[|l| - 1];
              var m3 := m2[t := m2[t].(next := Some(c))];
              Append(m, p, c, l) == m3[c := m3[c].(next := None)]
  {
  }

  lemma AppendNext(m: Memory, p: Id, c: Id, l: seq<Id>, e: Id)
    requires p in m && e in m
    ensures e in Append(m, p, c, l)
    ensures Append(m, p, c, l)[e].next ==
            if c in l then m[e].next
            else if e == c then None
            else if l != [] && e == l[|l| - 1] then Some(c)
            else m[e].next
    ensures Append(m, p, c, l)[e].parent == if e == c then Some(p) else m[e].parent
    ensures Append(m, p, c, l)[e].layer == if e == c then m[p].layer + 1 else m[e].layer
    ensures Append(m, p, c, l)[e].children == if c !in l && l == [] && e == p then Some(c) else m[e].children
  {
  }

  // The owner of a child that is taken keeps it behind its members.
  ghost function TakeTails(t: Tails, k: Kids, p: Id, c: Id): Tails {
    if Owned(k, c) && Owner(k, c) != p then t[Owner(k, c) := [c]] else t
  }

  // Neither end has to do with a tail yet, and the parent is not below the child.
  ghost predicate CanTake(k: Kids, t: Tails, p: Id, c: Id) {
    && p in k && c in k && c != Root && !Reach(k, c, p)
    && p !in t && NoTail(t, c) && (k[p] != [] && c !in k[p] ==> NoTail(t, k[p][|k[p]| - 1]))
  }

  // What a walk along y's list meets after add_child
  function TakenWalk(k: Kids, t: Tails, p: Id, c: Id, y: Id): seq<Id>
    requires p in k && y in k
  {
    if c in k[y] then if y == p then k[p] else k[y][..Index(k[y], c) + 1]
    else if y == p then k[p] + [c]
    else Walked(k, t, y)
  }

  lemma TakeWalk(s: Mesh, t: Tails, p: Id, c: Id, y: Id)
    requires Single(s.kids) && CanTake(s.kids, t, p, c) && p in s.layer && y in s.kids
    ensures y in Take(s, p, c).kids
    ensures Walked(Take(s, p, c).kids, TakeTails(t, s.kids, p, c), y) == TakenWalk(s.kids, t, p, c, y)
  {
    hide NoTail, Reach;
    if c in s.kids[y] {
      assert Owner(s.kids, c) == y;
      assert s.kids[y][..Index(s.kids[y], c)] + [c] == s.kids[y][..Index(s.kids[y], c) + 1];
    }
  }

  lemma TakenInLists(k: Kids, t: Tails, p: Id, c: Id, y: Id, j: nat)
    requires Single(k) && CanTake(k, t, p, c) && y in k && j < |Walked(k, t, y)|
    ensures Walked(k, t, y)[j] == c ==> c in k[y]
    ensures c !in k[p] && k[p] != [] && Walked(k, t, y)[j] == k[p][|k[p]| - 1] ==> y == p && j == |k[p]| - 1
  {
    hide Reach;
    var e := Walked(k, t, y)[j];
    if c !in k[p] && k[p] != [] && e == k[p][|k[p]| - 1] {
      assert k[p][|k[p]| - 1] in k[p];
      NotBehind(k, t, y, j);
      IndexUnique(k[p], j);
      IndexUnique(k[p], |k[p]| - 1);
    }
  }

  lemma TakeNext(m: Memory, s: Mesh, t: Tails, p: Id, c: Id, y: Id, j: nat)
    requires Single(s.kids) && Torn(m, s, t) && CanTake(s.kids, t, p, c) && p in m && y in m
    requires j < |TakenWalk(s.kids, t, p, c, y)|
    ensures Chained(Append(m, p, c, s.kids[p]), TakenWalk(s.kids, t, p, c, y), j)
  {
    hide Torn, Single, Append, NoTail, Reach;
    TornKeys(m, s, t);
    var k, w, w' := s.kids, Walked(s.kids, t, y), TakenWalk(s.kids, t, p, c, y);
    AppendNext(m, p, c, k[p], w'[j]) by { TakenKnown(m, s, t, p, c, y, j); }
    if y != p { TakenOnce(k, p, c, y); }
    if j < |w| && w'[j] == w[j] {
      ChainedAt(m, s, t, y, j);
      TakenInLists(k, t, p, c, y, j);
    }
  }

  lemma TakenKnown(m: Memory, s: Mesh, t: Tails, p: Id, c: Id, y: Id, j: nat)
    requires Torn(m, s, t) && CanTake(s.kids, t, p, c) && y in m && j < |TakenWalk(s.kids, t, p, c, y)|
    ensures TakenWalk(s.kids, t, p, c, y)[j] in m && TakenWalk(s.kids, t, p, c, y)[j] != Root
    ensures TakenWalk(s.kids, t, p, c, y)[j] != c ==>
              j < |Walked(s.kids, t, y)| && TakenWalk(s.kids, t, p, c, y)[j] == Walked(s.kids, t, y)[j]
  {
    hide NoTail, Reach;
    if j < |Walked(s.kids, t, y)| { ChainedAt(m, s, t, y, j); }
  }

  lemma TakenOnce(k: Kids, p: Id, c: Id, y: Id)
    requires Single(k) && p in k && y in k && y != p
    ensures c in k[y] ==> c !in k[p]
  {
  }

  // add_child of a child some list may hold: the list stops short of it, torn, and the child joins the parent's.
  lemma TakeTorn(m: Memory, s: Mesh, t: Tails, p: Id, c: Id)
    requires Sound(s) && Torn(m, s, t) && CanTake(s.kids, t, p, c)
    ensures p in m && p in s.layer
    ensures Torn(Append(m, p, c, s.kids[p]), Take(s, p, c), TakeTails(t, s.kids, p, c))
  {
    hide Torn, Single, Append, CanTake, TakenWalk, Walked, Take, Acyclic, TakeTails, Chained;
    TornKeys(m, s, t);
    TakeFacts(s, t, p, c);
    var m', s', t' := Append(m, p, c, s.kids[p]), Take(s, p, c), TakeTails(t, s.kids, p, c);
    AppendKeys(m, p, c, s.kids[p]);
    forall y | y in m
      ensures Walked(s'.kids, t', y) == TakenWalk(s.kids, t, p, c, y)
    {
      TakeWalk(s, t, p, c, y);
    }
    forall y | y in m'
      ensures Head(m', s', t', y)
    {
      TakeHead(m, s, t, p, c, y);
    }
    forall y, j: nat | y in m' && j < |Walked(s'.kids, t', y)|
      ensures Chained(m', Walked(s'.kids, t', y), j)
    {
      TakeNext(m, s, t, p, c, y, j);
    }
    forall y, d | y in m' && d in s'.kids[y]
      ensures PointsTo(m', d, y)
    {
      TakeParent(m, s, t, p, c, y, d);
    }
    forall o | o in t'
      ensures Stray(m', t', o)
    {
      TakeStray(m, s, t, p, c, o);
    }
    TornFrom(m', s', t');
  }

  lemma AppendKeys(m: Memory, p: Id, c: Id, l: seq<Id>)
    requires p in m
    ensures Append(m, p, c, l).Keys == m.Keys
  {
  }

  lemma TakeFacts(s: Mesh, t: Tails, p: Id, c: Id)
    requires Sound(s) && CanTake(s.kids, t, p, c)
    ensures p in s.kids && p in s.layer && c in s.kids && p != c && Single(s.kids)
    ensures Take(s, p, c).kids.Keys == Take(s, p, c).layer.Keys == s.kids.Keys
  {
    hide Acyclic;
    ReachSelf(s.kids, p);
  }

  lemma TakeHead(m: Memory, s: Mesh, t: Tails, p: Id, c: Id, y: Id)
    requires Single(s.kids) && Torn(m, s, t) && CanTake(s.kids, t, p, c) && p in m && p != c && y in m
    requires y in Take(s, p, c).kids && y in Take(s, p, c).layer && y in Append(m, p, c, s.kids[p])
    ensures Head(Append(m, p, c, s.kids[p]), Take(s, p, c), TakeTails(t, s.kids, p, c), y)
  {
    hide Torn, Single, Append, CanTake, Walked, TakeTails;
    TornKeys(m, s, t);
    TakeWalk(s, t, p, c, y);
    HeadAt(m, s, t, p);
    HeadAt(m, s, t, y);
    AppendNext(m, p, c, s.kids[p], y);
    TakeFirst(s.kids, t, p, c, y);
  }

  lemma HeadAt(m: Memory, s: Mesh, t: Tails, x: Id)
    requires Torn(m, s, t) && x in m
    ensures Head(m, s, t, x)
  {
  }

  lemma TakeFirst(k: Kids, t: Tails, p: Id, c: Id, y: Id)
    requires CanTake(k, t, p, c) && y in k
    ensures Member(TakenWalk(k, t, p, c, y), 0) ==
            if c !in k[p] && k[p] == [] && y == p then Some(c) else Member(Walked(k, t, y), 0)
  {
  }

  lemma TakeParent(m: Memory, s: Mesh, t: Tails, p: Id, c: Id, y: Id, d: Id)
    requires Single(s.kids) && Torn(m, s, t) && p in m && y in m && p in s.layer
    requires y in Take(s, p, c).kids && d in Take(s, p, c).kids[y] && c in m
    ensures PointsTo(Append(m, p, c, s.kids[p]), d, y)
  {
    hide Torn, Append;
    TornKeys(m, s, t);
    if d == c {
      AppendNext(m, p, c, s.kids[p], d);
    } else {
      OwnParent(m, s, t, y, d);
      AppendNext(m, p, c, s.kids[p], d);
    }
  }

  lemma TakeStray(m: Memory, s: Mesh, t: Tails, p: Id, c: Id, o: Id)
    requires Torn(m, s, t) && CanTake(s.kids, t, p, c) && p in m && c in m && o in TakeTails(t, s.kids, p, c)
    ensures Stray(Append(m, p, c, s.kids[p]), TakeTails(t, s.kids, p, c), o)
  {
    hide Torn, Append, Reach;
    TornKeys(m, s, t);
    AppendKeys(m, p, c, s.kids[p]);
    AppendNext(m, p, c, s.kids[p], c);
    if o in t {
      OtherParent(m, s, t, o);
      AppendNext(m, p, c, s.kids[p], t[o][0]);
    }
  }

  // When add_child leaves a forest: the child is detached or already in this list, and the parent is not below it.
  ghost predicate CanHang(k: Kids, p: Id, c: Id) {
    p in k && c in k && c != Root && (c in k[p] || (!Owned(k, c) && !Reach(k, c, p)))
  }

  lemma SelfHang(k: Kids, p: Id, c: Id)
    requires IsForest(k) && CanHang(k, p, c)
    ensures p != c && !Reach(k, c, p)
  {
    ReachSelf(k, p);
    if c in k[p] { LinkNoBack(k, p, c); }
  }

  lemma HangTakes(s: Mesh, p: Id, c: Id)
    requires IsForest(s.kids) && p in s.layer && CanHang(s.kids, p, c)
    ensures CanTake(s.kids, map[], p, c) && Take(s, p, c) == Hang(s, p, c) && TakeTails(map[], s.kids, p, c) == map[]
  {
    if c in s.kids[p] { LinkNoBack(s.kids, p, c); }
    TakeHangs(s, p, c);
  }

  lemma HangShape(m: Memory, s: Mesh, p: Id, c: Id)
    requires Sound(s) && Shape(m, s) && CanHang(s.kids, p, c)
    ensures p in m && p in s.layer && Shape(Append(m, p, c, s.kids[p]), Hang(s, p, c)) && Sound(Hang(s, p, c))
  {
    hide Shape, Torn, Append, Reach, Acyclic, Single, Owned;
    HangTakes(s, p, c);
    ShapeTorn(m, s);
    TakeTorn(m, s, map[], p, c);
    HangSound(s, p, c);
    ShapeTorn(Append(m, p, c, s.kids[p]), Hang(s, p, c));
  }

  // add_child of a child the list already has changes its layer at most.
  lemma ListedTorn(m: Memory, s: Mesh, t: Tails, p: Id, c: Id)
    requires Sound(s) && Torn(m, s, t) && p in s.kids && c in s.kids[p]
    ensures p in m && p in s.layer && Sound(Take(s, p, c))
    ensures Torn(Append(m, p, c, Walked(s.kids, t, p)), Take(s, p, c), t)
  {
    hide Torn, Append, Walked, Acyclic, Chained;
    TornKeys(m, s, t);
    LinkEnds(s, p, c);
    LinkNoBack(s.kids, p, c);
    TakeHangs(s, p, c);
    MemberWalked(s.kids, t, p, c);
    var l := Walked(s.kids, t, p);
    var m', s' := Append(m, p, c, l), Take(s, p, c);
    AppendKeys(m, p, c, l);
    HeadAt(m, s, t, p);
    forall y | y in m'
      ensures Head(m', s', t, y)
    {
      HeadAt(m, s, t, y);
      AppendNext(m, p, c, l, y);
    }
    forall y, j: nat | y in m' && j < |Walked(s'.kids, t, y)|
      ensures Chained(m', Walked(s'.kids, t, y), j)
    {
      ListedNext(m, s, t, p, c, y, j);
    }
    forall y, d | y in m' && d in s'.kids[y]
      ensures PointsTo(m', d, y)
    {
      OwnParent(m, s, t, y, d);
      AppendNext(m, p, c, l, d);
    }
    forall o | o in t
      ensures Stray(m', t, o)
    {
      OtherParent(m, s, t, o);
      OwnParent(m, s, t, p, c);
      AppendNext(m, p, c, l, t[o][0]);
    }
    TornFrom(m', s', t);
  }

  lemma ListedNext(m: Memory, s: Mesh, t: Tails, p: Id, c: Id, y: Id, j: nat)
    requires Torn(m, s, t) && p in m && c in Walked(s.kids, t, p) && y in m && j < |Walked(s.kids, t, y)|
    ensures Chained(Append(m, p, c, Walked(s.kids, t, p)), Walked(s.kids, t, y), j)
  {
    hide Torn, Append, Walked;
    TornKeys(m, s, t);
    ChainedAt(m, s, t, y, j);
    AppendNext(m, p, c, Walked(s.kids, t, p), Walked(s.kids, t, y)[j]);
  }

  // bug_inconsistency_fix: a list whose members are all gone is cleared of its tail.
  lemma MendTorn(m: Memory, s: Mesh, t: Tails, x: Id)
    requires Torn(m, s, t) && x in t && x in s.kids && s.kids[x] == []
    ensures x in m && Torn(m[x := m[x].(children := None)], s, t - {x})
  {
    hide Torn, Walked;
    TornKeys(m, s, t);
    var m', t' := m[x := m[x].(children := None)], t - {x};
    forall y | y in m
      ensures Walked(s.kids, t', y) == (if y == x then [] else Walked(s.kids, t, y)) && Head(m', s, t', y)
    {
      HeadAt(m, s, t, y);
      MendWalk(s.kids, t, x, y);
    }
    forall y, j: nat | y in m' && j < |Walked(s.kids, t', y)|
      ensures Chained(m', Walked(s.kids, t', y), j)
    {
      ChainedAt(m, s, t, y, j);
    }
    forall y, c | y in m' && c in s.kids[y]
      ensures PointsTo(m', c, y)
    {
      OwnParent(m, s, t, y, c);
    }
    forall o | o in t'
      ensures Stray(m', t', o)
    {
      OtherParent(m, s, t, o);
    }
    TornFrom(m', s, t');
  }

  lemma MendWalk(k: Kids, t: Tails, x: Id, y: Id)
    requires y in k && x in k && k[x] == []
    ensures Walked(k, t - {x}, y) == if y == x then [] else Walked(k, t, y)
  {
  }

  /* A router hung behind a device the root still lists */

  // The root's list goes on with d, which is the last of p's list too: appending p ends both lists in p.
  ghost predicate CanFollow(k: Kids, t: Tails, p: Id, d: Id) {
    && Root in k && p in k && p != Root && p !in k[Root] && t == map[Root := [d]]
    && k[p] != [] && k[p][|k[p]| - 1] == d
  }

  // There is such a device.
  ghost predicate Behind(k: Kids, t: Tails, p: Id) {
    Root in t && t[Root] != [] && CanFollow(k, t, p, t[Root][0])
  }

  ghost function Follow(s: Mesh, p: Id): Mesh
    requires Root in s.layer
  {
    var s' := CutShort(s, Root, p);
    s'.(layer := s'.layer[p := s'.layer[Root] + 1])
  }

  ghost function FollowTails(k: Kids, p: Id, d: Id): Tails {
    TakeTails(map[], k, Root, p)[Root := [d, p]][p := [p]]
  }

  function FollowWalk(k: Kids, p: Id, d: Id, y: Id): seq<Id>
    requires y in k
  {
    if y == Root then k[y] + [d, p]
    else if y == p then k[y] + [p]
    else if p in k[y] then k[y][..Index(k[y], p) + 1]
    else k[y]
  }

  lemma FollowWalks(s: Mesh, t: Tails, p: Id, d: Id, y: Id)
    requires Sound(s) && CanFollow(s.kids, t, p, d) && y in s.kids
    ensures y in Follow(s, p).kids && y in Follow(s, p).layer
    ensures Walked(Follow(s, p).kids, FollowTails(s.kids, p, d), y) == FollowWalk(s.kids, p, d, y)
    ensures Follow(s, p).layer[y] == if y == p then s.layer[Root] + 1 else s.layer[y]
    ensures forall c :: c in Follow(s, p).kids[y] ==> c in s.kids[y] && c != p
  {
    hide Acyclic, Reach;
    if p in s.kids[p] { LinkNoBack(s.kids, p, p); }
    if p in s.kids[y] {
      assert Owner(s.kids, p) == y;
      assert s.kids[y][..Index(s.kids[y], p)] + [p] == s.kids[y][..Index(s.kids[y], p) + 1];
    }
  }

  lemma FollowNext(m: Memory, s: Mesh, t: Tails, p: Id, d: Id, y: Id, j: nat)
    requires Sound(s) && Torn(m, s, t) && CanFollow(s.kids, t, p, d) && y in m && Root in m
    requires j < |FollowWalk(s.kids, p, d, y)|
    ensures Chained(Append(m, Root, p, s.kids[Root] + [d]), FollowWalk(s.kids, p, d, y), j)
  {
    hide Torn, Append, Sound, CanFollow, FollowWalk, Walked;
    FollowFacts(s, t, p, d);
    TornKeys(m, s, t);
    var l, w := s.kids[Root] + [d], FollowWalk(s.kids, p, d, y);
    AppendNext(m, Root, p, l, p);
    if w[j] == p {
      FollowLast(s.kids, p, d, y, j);
    } else {
      FollowAt(s, t, p, d, y, j);
      ChainedAt(m, s, t, y, j);
      AppendNext(m, Root, p, l, w[j]);
    }
  }

  // Any other node of a walk stands where it stood, the device right before the router.
  lemma FollowAt(s: Mesh, t: Tails, p: Id, d: Id, y: Id, j: nat)
    requires Sound(s) && CanFollow(s.kids, t, p, d) && y in s.kids && j < |FollowWalk(s.kids, p, d, y)|
    requires FollowWalk(s.kids, p, d, y)[j] != p
    ensures var w, w' := Walked(s.kids, t, y), FollowWalk(s.kids, p, d, y);
            && j < |w| && w[j] == w'[j]
            && Member(w', j + 1) == if w[j] == d then Some(p) else Member(w, j + 1)
  {
    hide Acyclic, Closed;
    var k, w := s.kids, Walked(s.kids, t, y);
    assert d in k[p];
    assert w == if y == Root then k[y] + [d] else k[y];
    if w[j] == d && y != Root {
      IndexUnique(k[p], |k[p]| - 1);
      IndexUnique(k[y], j);
    }
    if y == Root && j < |k[y]| { assert k[y][j] in k[y]; }
  }

  lemma FollowLast(k: Kids, p: Id, d: Id, y: Id, j: nat)
    requires y in k && j < |FollowWalk(k, p, d, y)| && FollowWalk(k, p, d, y)[j] == p
    requires Root in k && p in k && p !in k[Root] && p !in k[p] && p != d
    ensures j + 1 == |FollowWalk(k, p, d, y)|
  {
    if y != Root && y != p && p in k[y] {
      IndexFirst(k[y], p);
    }
  }

  lemma IndexFirst(l: seq<Id>, c: Id)
    requires c in l
    ensures forall j :: 0 <= j < Index(l, c) ==> l[j] != c
  {
    assert forall j :: 0 <= j < Index(l, c) ==> l[j] == l[..Index(l, c)][j];
  }

  lemma FollowFacts(s: Mesh, t: Tails, p: Id, d: Id)
    requires Sound(s) && CanFollow(s.kids, t, p, d)
    ensures Root in s.kids && p in s.kids && Root in s.layer && Sound(Follow(s, p)) && p != d
    ensures p != Root && p !in s.kids[Root] && p !in s.kids[p]
    ensures Follow(s, p).kids.Keys == Follow(s, p).layer.Keys == s.kids.Keys
  {
    hide IsForest, CutShort;
    CutShortSound(s, Root, p);
    LinkApart(s, p, d);
  }

  lemma LinkApart(s: Mesh, p: Id, d: Id)
    requires Sound(s) && p in s.kids && d in s.kids[p]
    ensures p != d && p !in s.kids[p]
  {
    LinkNoBack(s.kids, p, d);
    if p in s.kids[p] { LinkNoBack(s.kids, p, p); }
  }

  lemma FollowHead(m: Memory, s: Mesh, t: Tails, p: Id, d: Id, y: Id)
    requires Sound(s) && Torn(m, s, t) && CanFollow(s.kids, t, p, d) && Root in m && y in m
    requires y in Follow(s, p).kids && y in Follow(s, p).layer && y in Append(m, Root, p, s.kids[Root] + [d])
    ensures Head(Append(m, Root, p, s.kids[Root] + [d]), Follow(s, p), FollowTails(s.kids, p, d), y)
  {
    hide Torn, Append, IsForest, FollowTails, Follow;
    TornKeys(m, s, t);
    FollowWalks(s, t, p, d, y);
    HeadAt(m, s, t, Root);
    HeadAt(m, s, t, y);
    AppendNext(m, Root, p, s.kids[Root] + [d], y);
    FollowFirst(s.kids, t, p, d, y);
  }

  lemma FollowFirst(k: Kids, t: Tails, p: Id, d: Id, y: Id)
    requires CanFollow(k, t, p, d) && y in k
    ensures Member(FollowWalk(k, p, d, y), 0) == Member(Walked(k, t, y), 0)
  {
  }

  lemma FollowStray(m: Memory, s: Mesh, t: Tails, p: Id, d: Id, o: Id)
    requires Torn(m, s, t) && CanFollow(s.kids, t, p, d) && p != d && Root in m && p in m
    requires o in FollowTails(s.kids, p, d)
    ensures Stray(Append(m, Root, p, s.kids[Root] + [d]), FollowTails(s.kids, p, d), o)
  {
    hide Torn, Append;
    TornKeys(m, s, t);
    AppendKeys(m, Root, p, s.kids[Root] + [d]);
    AppendNext(m, Root, p, s.kids[Root] + [d], p);
    OtherParent(m, s, t, Root);
    AppendNext(m, Root, p, s.kids[Root] + [d], d);
  }

  lemma FollowParent(m: Memory, s: Mesh, t: Tails, p: Id, d: Id, y: Id, c: Id)
    requires Torn(m, s, t) && CanFollow(s.kids, t, p, d) && Root in m && y in s.kids && c in s.kids[y] && c != p
    ensures PointsTo(Append(m, Root, p, s.kids[Root] + [d]), c, y)
  {
    hide Torn, Append;
    TornKeys(m, s, t);
    OwnParent(m, s, t, y, c);
    AppendNext(m, Root, p, s.kids[Root] + [d], c);
  }

  lemma FollowTorn(m: Memory, s: Mesh, t: Tails, p: Id, d: Id)
    requires Sound(s) && Torn(m, s, t) && CanFollow(s.kids, t, p, d)
    ensures Root in m && Root in s.layer && Sound(Follow(s, p))
    ensures Torn(Append(m, Root, p, s.kids[Root] + [d]), Follow(s, p), FollowTails(s.kids, p, d))
  {
    hide Torn, Sound, Append, CanFollow, FollowWalk, Walked, Follow, FollowTails, Chained;
    TornKeys(m, s, t);
    FollowFacts(s, t, p, d);
    var m', s', t' := Append(m, Root, p, s.kids[Root] + [d]), Follow(s, p), FollowTails(s.kids, p, d);
    AppendKeys(m, Root, p, s.kids[Root] + [d]);
    forall y | y in m
      ensures Walked(s'.kids, t', y) == FollowWalk(s.kids, p, d, y) && Head(m', s', t', y)
    {
      FollowWalks(s, t, p, d, y);
      FollowHead(m, s, t, p, d, y);
    }
    forall y, j: nat | y in m' && j < |Walked(s'.kids, t', y)|
      ensures Chained(m', Walked(s'.kids, t', y), j)
    {
      FollowNext(m, s, t, p, d, y, j);
    }
    forall y, c | y in m' && c in s'.kids[y]
      ensures PointsTo(m', c, y)
    {
      FollowWalks(s, t, p, d, y);
      FollowParent(m, s, t, p, d, y, c);
    }
    forall o | o in t'
      ensures Stray(m', t', o)
    {
      FollowStray(m, s, t, p, d, o);
    }
    TornFrom(m', s', t');
  }

  /* The converse: outside CanHang, add_child leaves no forest behind */

  predicate SameNext(m: Memory, m': Memory, l: seq<Id>, j: nat)
    requires j < |l|
  {
    l[j] in m && l[j] in m' && m'[l[j]].next == m[l[j]].next
  }

  // A list read back through unchanged pointers is the same as far as they are unchanged.
  lemma {:induction false} PrefixKept(m: Memory, s: Mesh, m': Memory, s': Mesh, x: Id, i: nat)
    requires Shape(m, s) && Shape(m', s') && x in m && x in m' && i < |s.kids[x]|
    requires m'[x].children == m[x].children
    requires forall j: nat :: j < i ==> SameNext(m, m', s.kids[x], j)
    ensures i < |s'.kids[x]| && s'.kids[x][i] == s.kids[x][i]
  {
    if i > 0 {
      PrefixKept(m, s, m', s', x, i - 1);
      assert SameNext(m, m', s.kids[x], i - 1);
      assert Linked(m, x, s.kids[x], i - 1) && Linked(m', x, s'.kids[x], i - 1);
    }
  }

  ghost predicate Appends(m: Memory, s: Mesh, p: Id, c: Id, s': Mesh) {
    && Single(s.kids) && Shape(m, s) && p in s.kids && c in s.kids && c !in s.kids[p]
    && Shape(Append(m, p, c, s.kids[p]), s')
  }

  lemma AppendSameNext(m: Memory, s: Mesh, p: Id, c: Id, x: Id, j: nat)
    requires Single(s.kids) && Shape(m, s) && p in s.kids && x in s.kids && j < |s.kids[x]|
    requires s.kids[x][j] != c && (x == p ==> j + 1 < |s.kids[x]|)
    ensures SameNext(m, Append(m, p, c, s.kids[p]), s.kids[x], j)
  {
    var l, d := s.kids[p], s.kids[x][j];
    LastApart(s.kids, p, x, j);
    assert d in m by {
      assert Linked(m, x, s.kids[x], j);
    }
  }

  lemma LastApart(k: Kids, p: Id, x: Id, j: nat)
    requires Single(k) && p in k && x in k && j < |k[x]| && (x == p ==> j + 1 < |k[x]|)
    ensures k[p] == [] || k[x][j] != k[p][|k[p]| - 1]
  {
    var l := k[p];
    if l != [] {
      assert l[|l| - 1] in l && k[x][j] in k[x];
      assert x == p ==> Apart(l, j, |l| - 1);
    }
  }

  // The appended child is read back at the end of the parent's list.
  lemma AppendedRead(m: Memory, s: Mesh, p: Id, c: Id, s': Mesh)
    requires Appends(m, s, p, c, s')
    ensures c in s'.kids[p]
  {
    var l, m' := s.kids[p], Append(m, p, c, s.kids[p]);
    if l == [] {
      assert m'[p].children == Some(c) == Member(s'.kids[p], 0);
      assert s'.kids[p][0] == c;
    } else {
      var n := |l| - 1;
      forall j: nat | j < n
        ensures SameNext(m, m', l, j)
      {
        assert l[j] in l;
        AppendSameNext(m, s, p, c, p, j);
      }
      PrefixKept(m, s, m', s', p, n);
      assert Linked(m, p, l, n) && Linked(m', p, s'.kids[p], n);
      assert l[n] in l && m'[l[n]].next == Some(c);
      assert s'.kids[p][n + 1] == c;
    }
  }

  // Any list member up to the child's own place is read back too.
  lemma OthersRead(m: Memory, s: Mesh, p: Id, c: Id, s': Mesh, x: Id, i: nat)
    requires Appends(m, s, p, c, s') && x in s.kids && i < |s.kids[x]|
    requires c !in s.kids[x][..i]
    ensures s.kids[x][i] in s'.kids[x]
  {
    var m' := Append(m, p, c, s.kids[p]);
    assert s.kids[x][i] in s.kids[x];
    forall j: nat | j < i
      ensures SameNext(m, m', s.kids[x], j)
    {
      assert s.kids[x][j] == s.kids[x][..i][j];
      AppendSameNext(m, s, p, c, x, j);
    }
    PrefixKept(m, s, m', s', x, i);
    assert s'.kids[x][i] == s.kids[x][i];
  }

  lemma AppendsKnows(m: Memory, s: Mesh, p: Id, c: Id, s': Mesh)
    requires Appends(m, s, p, c, s')
    ensures s'.kids.Keys == s.kids.Keys
  {
  }

  lemma {:induction false} PathRead(m: Memory, s: Mesh, p: Id, c: Id, s': Mesh, n: nat, y: Id)
    requires Appends(m, s, p, c, s') && !Owned(s.kids, c) && Steps(s.kids, n, c, y)
    ensures Reach(s'.kids, c, y)
  {
    hide Single, Reach, Append;
    AppendsKnows(m, s, p, c, s');
    if n == 0 {
      ReachSelf(s'.kids, c);
    } else {
      var o :| Steps(s.kids, n - 1, c, o) && o in s.kids && y in s.kids[o];
      PathRead(m, s, p, c, s', n - 1, o);
      var i :| 0 <= i < |s.kids[o]| && s.kids[o][i] == y;
      assert c !in s.kids[o];
      OthersRead(m, s, p, c, s', o, i);
      ReachStep(s'.kids, c, o, y);
    }
  }

  lemma HangNecessary(m: Memory, s: Mesh, p: Id, c: Id, s': Mesh)
    requires Appends(m, s, p, c, s') && IsForest(s'.kids) && c != Root
    ensures CanHang(s.kids, p, c)
  {
    AppendedRead(m, s, p, c, s');
    if Owned(s.kids, c) {
      var q := Owner(s.kids, c);
      OthersRead(m, s, p, c, s', q, Index(s.kids[q], c));
    } else if Reach(s.kids, c, p) {
      var n: nat :| Steps(s.kids, n, c, p);
      PathRead(m, s, p, c, s', n, p);
      LinkNoBack(s'.kids, p, c);
    }
  }

  lemma HangTears(m: Memory, s: Mesh, p: Id, c: Id)
    requires Sound(s) && Shape(m, s) && p in s.kids && c in s.kids && c != Root && !CanHang(s.kids, p, c)
    ensures c !in s.kids[p] && NoForest(Append(m, p, c, s.kids[p]))
  {
    forall s': Mesh | Sound(s')
      ensures !Shape(Append(m, p, c, s.kids[p]), s')
    {
      if Shape(Append(m, p, c, s.kids[p]), s') {
        HangNecessary(m, s, p, c, s');
      }
    }
  }

  lemma HangExact(m: Memory, s: Mesh, p: Id, c: Id)
    requires Sound(s) && Shape(m, s) && p in s.kids && c in s.kids && c != Root
    ensures (exists s' :: Sound(s') && Shape(Append(m, p, c, s.kids[p]), s')) <==> CanHang(s.kids, p, c)
  {
    if CanHang(s.kids, p, c) {
      HangShape(m, s, p, c);
    } else {
      HangTears(m, s, p, c);
    }
  }
}