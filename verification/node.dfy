/** The intrusive first-child/next-sibling/parent nodes. */
module TreeNode {
  import opened Addresses
  import opened Forest
  import opened Topology
  import opened Memory

  type Nodes = map<Id, Node>

  function AddrOf(i: Id): Mac {
    if i == Root then ZERO_MAC else i.addr
  }

  ghost function Ref(p: Node?): Option<Id> {
    if p == null then None else Some(p.id)
  }

  ghost predicate Inside(n: Nodes, p: Node?) {
    p == null || (p.id in n && n[p.id] == p)
  }

  // Every pointer, stale or not, leads to a known node.
  ghost predicate Tied(n: Nodes)
    reads n.Values
  {
    Named(n) && forall i {:trigger NodeOk(n, i)} :: i in n ==> NodeOk(n, i)
  }

  ghost predicate Named(n: Nodes) {
    forall i :: i in n ==> n[i].id == i && n[i].addr == AddrOf(i)
  }

  ghost predicate NodeOk(n: Nodes, i: Id)
    requires i in n
    reads n[i]
  {
    Inside(n, n[i].next) && Inside(n, n[i].parent) && Inside(n, n[i].children)
  }

  ghost function View(n: Nodes): Memory
    reads n.Values
  {
    map i | i in n :: CellOf(n[i])
  }

  ghost function CellOf(x: Node): Cell
    reads x
  {
    Cell(x.layer, Ref(x.next), Ref(x.parent), Ref(x.children))
  }

  ghost predicate Rep(n: Nodes, s: Mesh, t: Tails)
    reads n.Values
  {
    Tied(n) && Torn(View(n), s, t) && Sound(s)
  }

  ghost function Nth(n: Nodes, l: seq<Id>, i: int): Node? {
    if 0 <= i < |l| && l[i] in n then n[l[i]] else null
  }

  // Walking a sibling list one node at a time.
  lemma Advance(n: Nodes, s: Mesh, t: Tails, x: Id, i: nat, c: Node)
    requires Rep(n, s, t) && x in n && x in s.kids && c == Nth(n, Walked(s.kids, t, x), i)
    ensures var l := Walked(s.kids, t, x);
            && i < |l| && c.id == l[i] && c.id == At(c.addr) && n[c.id] == c && c.id in s.kids
            && c.next == Nth(n, l, i + 1) && (c.next == null ==> i + 1 == |l|)
            && (i < |s.kids[x]| ==> c.id == s.kids[x][i] && c.id in s.kids[x])
  {
    assert NodeOk(n, c.id) && Chained(View(n), Walked(s.kids, t, x), i);
  }

  lemma Begin(n: Nodes, s: Mesh, t: Tails, x: Id)
    requires Rep(n, s, t) && x in n
    ensures x in s.kids
    ensures n[x].children == Nth(n, Walked(s.kids, t, x), 0) && (n[x].children == null ==> Walked(s.kids, t, x) == [])
  {
    assert NodeOk(n, x) && Head(View(n), s, t, x);
  }

  lemma GrowTied(n: Nodes, x: Node)
    requires Tied(n) && x.id == At(x.addr) && x.id !in n && CellOf(x) == BLANK
    ensures Tied(n[x.id := x]) && View(n[x.id := x]) == View(n)[x.id := BLANK]
  {
    var n' := n[x.id := x];
    forall i | i in n'
      ensures NodeOk(n', i)
    {
      assert i in n ==> NodeOk(n, i);
    }
    OneMore(View(n), View(n'), x.id);
  }

  lemma InView(n: Nodes, i: Id)
    requires i in n
    ensures i in View(n) && View(n)[i] == CellOf(n[i])
  {
  }

  // A node nobody points to yet joins the known nodes.
  lemma Grow(n: Nodes, s: Mesh, t: Tails, x: Node)
    requires Rep(n, s, t) && x.id == At(x.addr) && x.id !in n
    requires CellOf(x) == BLANK
    ensures Rep(n[x.id := x], Known(s, x.addr), t)
  {
    hide Tied, Torn, Sound, Known;
    GrowTied(n, x);
    NotViewed(n, x.id);
    KnownTorn(View(n), s, t, x.addr);
    KnownForest(s, x.addr);
  }

  lemma NotViewed(n: Nodes, i: Id)
    requires i !in n
    ensures i !in View(n)
  {
  }

  lemma RepKeys(n: Nodes, s: Mesh, t: Tails)
    requires Rep(n, s, t)
    ensures n.Keys == s.kids.Keys == s.layer.Keys && Named(n) && Sound(s)
  {
  }

  class Node {
    const addr: Mac
    ghost const id: Id
    var layer: int
    var next: Node?
    var parent: Node?
    var children: Node?

    constructor (addr: Mac, layer: int, ghost id: Id)
      ensures this.addr == addr && this.id == id && this.layer == layer
      ensures next == null && parent == null && children == null
    {
      this.addr, this.id, this.layer := addr, id, layer;
      next, parent, children := null, null, null;
    }

    /* One field write, and the one cell it changes */

    method SetLayer(v: int, ghost n: Nodes)
      requires Tied(n) && Inside(n, this)
      modifies this`layer
      ensures Tied(n) && layer == v
      ensures View(n) == old(View(n))[id := old(View(n))[id].(layer := v)]
    {
      layer := v;
      forall i | i in n
        ensures NodeOk(n, i)
      {
        assert old(NodeOk(n, i));
      }
      OneCell(old(View(n)), View(n), id);
    }

    method SetNext(v: Node?, ghost n: Nodes)
      requires Tied(n) && Inside(n, this) && Inside(n, v)
      modifies this`next
      ensures Tied(n) && next == v
      ensures View(n) == old(View(n))[id := old(View(n))[id].(next := Ref(v))]
    {
      next := v;
      forall i | i in n
        ensures NodeOk(n, i)
      {
        assert old(NodeOk(n, i));
      }
      OneCell(old(View(n)), View(n), id);
    }

    method SetParent(v: Node?, ghost n: Nodes)
      requires Tied(n) && Inside(n, this) && Inside(n, v)
      modifies this`parent
      ensures Tied(n) && parent == v
      ensures View(n) == old(View(n))[id := old(View(n))[id].(parent := Ref(v))]
    {
      parent := v;
      forall i | i in n
        ensures NodeOk(n, i)
      {
        assert old(NodeOk(n, i));
      }
      OneCell(old(View(n)), View(n), id);
    }

    method SetChildren(v: Node?, ghost n: Nodes)
      requires Tied(n) && Inside(n, this) && Inside(n, v)
      modifies this`children
      ensures Tied(n) && children == v
      ensures View(n) == old(View(n))[id := old(View(n))[id].(children := Ref(v))]
    {
      children := v;
      forall i | i in n
        ensures NodeOk(n, i)
      {
        assert old(NodeOk(n, i));
      }
      OneCell(old(View(n)), View(n), id);
    }

    method Relayer(v: int, ghost n: Nodes, ghost s: Mesh, ghost t: Tails)
      requires Rep(n, s, t) && Inside(n, this) && id == At(addr)
      modifies this`layer
      ensures Rep(n, WithLayer(s, addr, v), t) && layer == v
    {
      LayerTorn(View(n), s, t, addr, v);
      LayerSound(s, addr, v);
      SetLayer(v, n);
      hide Torn;
      hide Sound;
    }

    method Clear(ghost n: Nodes)
      requires Tied(n) && Inside(n, this)
      modifies this
      ensures Tied(n) && View(n) == old(View(n))[id := BLANK] && next == null
    {
      children := null;
      next := null;
      parent := null;
      layer := UNDEFINED;
      forall i | i in n
        ensures NodeOk(n, i)
      {
        assert old(NodeOk(n, i));
      }
      OneCell(old(View(n)), View(n), id);
    }

    // Clears next before the caller's loop reads it: only first children are reached.
    method UndoBranch(ghost n: Nodes, ghost s: Mesh, ghost t: Tails, ghost r: map<Id, nat>)
      requires Rep(n, s, t) && Ranked(s.kids, r) && Inside(n, this) && Untorn(s.kids, t, id)
      modifies n.Values
      ensures Tied(n) && View(n) == Reset(old(View(n)), Spine(s.kids, id)) && next == null
      decreases r[id]
    {
      hide Torn, Untorn, Single, Spine;
      Begin(n, s, t, id);
      SpineUnfold(s.kids, id);
      UntornSelf(s.kids, t, id);
      ghost var l := s.kids[id];
      ghost var done: set<Id> := {};
      var c := children;
      while c != null
        invariant Tied(n) && View(n) == Reset(old(View(n)), done)
        invariant c != null ==> done == {} && c == Nth(n, l, 0)
        invariant c == null ==> done == if l == [] then {} else Spine(s.kids, l[0])
        decreases c != null
      {
        assert View(n) == old(View(n));
        Advance(n, s, t, id, 0, c);
        assert c.id in l;
        UntornDown(s.kids, t, id, c.id);
        done := Spine(s.kids, l[0]);
        c.UndoBranch(n, s, t, r);
        c := c.next;
      }
      Clear(n);
      ResetTwice(old(View(n)), done, id);
    }

    method IsDescendent(child: Mac, ghost n: Nodes, ghost s: Mesh, ghost t: Tails, ghost r: map<Id, nat>)
      returns (found: bool)
      requires Rep(n, s, t) && Ranked(s.kids, r) && Inside(n, this) && Clean(s.kids, t, id)
      ensures found <==> Below(s.kids, id, At(child))
      decreases r[id]
    {
      hide Torn;
      hide Acyclic;
      hide Single;
      hide Clean;
      Begin(n, s, t, id);
      CleanWalk(s.kids, t, id);
      ghost var l := s.kids[id];
      var c := children;
      ghost var i := 0;
      while c != null
        invariant i <= |l| && c == Nth(n, l, i) && (c == null ==> i == |l|)
        invariant forall j :: 0 <= j < i ==> !Reach(s.kids, l[j], At(child))
        decreases |l| - i
        modifies {}
      {
        Advance(n, s, t, id, i, c);
        LinkNoBack(s.kids, id, c.id);
        if c.addr == child {
          ReachLink(s.kids, id, c.id);
          return true;
        }
        ghost var after := c.next;
        CleanDown(s.kids, t, id, c.id);
        found := c.IsDescendent(child, n, s, t, r);
        assert c.next == after;
        if found {
          ReachVia(s.kids, id, c.id, At(child));
          return true;
        }
        assert !Reach(s.kids, c.id, At(child));
        c := c.next;
        i := i + 1;
      }
      if Below(s.kids, id, At(child)) {
        var d := TopLink(s.kids, id, At(child));
      }
      return false;
    }

    // Takes c, the i-th member of this node's list, out of the list.
    method Bypass(before: Node?, c: Node, ghost i: nat, ghost n: Nodes, ghost s: Mesh, ghost t: Tails)
      requires Rep(n, s, t) && Inside(n, this) && id in s.kids && i < |s.kids[id]| && NoTail(t, c.id)
      requires c == Nth(n, Walked(s.kids, t, id), i) && before == Nth(n, Walked(s.kids, t, id), i - 1)
      modifies n.Values
      ensures Rep(n, Unlink(s, id, c.id), t) && !Owned(Unlink(s, id, c.id).kids, c.id)
      ensures forall y :: y in n ==> n[y].parent == old(n[y].parent)
    {
      hide Rep, Torn, Sound, Unlink, Tied, Owned, NoTail;
      BypassFacts(n, s, t, this, before, c, i);
      if before != null {
        before.SetNext(c.next, n);
      } else {
        SetChildren(c.next, n);
      }
      RepFrom(n, Unlink(s, id, c.id), t);
    }

    method Detach(ghost n: Nodes, ghost s: Mesh, ghost t: Tails, ghost s': Mesh)
      requires Rep(n, s, t) && Inside(n, this) && !Owned(s.kids, id) && id != Root && Untorn(s.kids, t, id)
      requires s' == Undo(s, id)
      modifies n.Values
      ensures Rep(n, s', t) && next == null
      ensures forall y :: y in n ==> n[y].parent == if y in Spine(s.kids, id) then null else old(n[y].parent)
    {
      hide Torn, Untorn, Spine, Single, Closed;
      TornKeys(View(n), s, t);
      ResetTorn(View(n), s, t, id);
      UndoSound(s, id);
      UndoBranch(n, s, t, RankOf(s.kids));
      forall y | y in n
        ensures n[y].parent == if y in Spine(s.kids, id) then null else old(n[y].parent)
      {
        assert NodeOk(n, y) && old(NodeOk(n, y));
        assert View(n)[y] == if y in Spine(s.kids, id) then BLANK else old(View(n))[y];
      }
    }

    // The search loop of remove_child: the member with this address and the one before it.
    method FindChild(caddr: Mac, ghost n: Nodes, ghost s: Mesh, ghost t: Tails)
      returns (before: Node?, c: Node?, ghost i: nat)
      requires Rep(n, s, t) && Inside(n, this) && id in s.kids && (id in t ==> At(caddr) !in t[id])
      ensures c == null <==> At(caddr) !in s.kids[id]
      ensures c != null ==>
                && i < |s.kids[id]| && c.id == At(caddr) && c == Nth(n, Walked(s.kids, t, id), i)
                && before == Nth(n, Walked(s.kids, t, id), i - 1)
    {
      hide Torn;
      hide Sound;
      Begin(n, s, t, id);
      ghost var l := Walked(s.kids, t, id);
      before := null;
      c := children;
      i := 0;
      while c != null && c.addr != caddr
        invariant i <= |l| && c == Nth(n, l, i) && (c == null ==> i == |l|) && before == Nth(n, l, i - 1)
        invariant forall j :: 0 <= j < i ==> l[j] != At(caddr)
        decreases |l| - i
      {
        Advance(n, s, t, id, i, c);
        before := c;
        c := c.next;
        i := i + 1;
      }
      if c != null {
        Advance(n, s, t, id, i, c);
      }
      FoundMember(s.kids, t, id, At(caddr));
    }

    method RemoveChild(caddr: Mac, ghost n: Nodes, ghost s: Mesh, ghost t: Tails) returns (found: bool)
      requires Rep(n, s, t) && Inside(n, this) && id in s.kids && (id in t ==> At(caddr) !in t[id])
      requires At(caddr) in s.kids[id] ==> Untorn(s.kids, t, At(caddr))
      modifies n.Values
      ensures Rep(n, DropChild(s, id, At(caddr)), t)
      ensures found <==> At(caddr) in s.kids[id]
      ensures found ==> At(caddr) in n && n[At(caddr)].next == null
      ensures forall y :: y in n ==>
                n[y].parent == if found && y in Spine(s.kids, At(caddr)) then null else old(n[y].parent)
    {
      hide Torn, Untorn, NoTail;
      var before, c, i := FindChild(caddr, n, s, t);
      if c == null {
        return false;
      }
      LinkEnds(s, id, c.id);
      UntornSelf(s.kids, t, c.id);
      Bypass(before, c, i, n, s, t);
      RemovedSpine(s, id, c.id);
      UnlinkSound(s, id, c.id);
      UntornFewer(Unlink(s, id, c.id).kids, s.kids, t, c.id);
      c.Detach(n, Unlink(s, id, c.id), t, DropChild(s, id, At(caddr)));
      return true;
    }

    // The search loop of add_child: this child if the walk meets it, else the last node.
    method Tail(child: Node, ghost n: Nodes, ghost s: Mesh, ghost t: Tails) returns (c: Node?)
      requires Rep(n, s, t) && Inside(n, this) && id in s.kids && Inside(n, child) && child.id != Root
      ensures var l := Walked(s.kids, t, id);
              && (c == null <==> l == [])
              && (c != null && child.id in l ==> c == child)
              && (c != null && child.id !in l ==> c != child && Inside(n, c) && c.id == l[|l| - 1])
    {
      hide Torn;
      hide Sound;
      Begin(n, s, t, id);
      ghost var l := Walked(s.kids, t, id);
      c := children;
      ghost var i := 0;
      while c != null && c.addr != child.addr && c.next != null
        invariant i <= |l| && c == Nth(n, l, i) && (c == null ==> l == [])
        invariant forall j :: 0 <= j < i ==> l[j] != child.id
        decreases |l| - i
      {
        Advance(n, s, t, id, i, c);
        c := c.next;
        i := i + 1;
      }
      if c != null {
        Advance(n, s, t, id, i, c);
      }
    }

    // The pointer writes of add_child, given where its search loop stopped.
    method Attach(c: Node?, child: Node, ghost l: seq<Id>, ghost n: Nodes)
      requires Tied(n) && Inside(n, this) && Inside(n, child) && Inside(n, c)
      requires c == null <==> l == []
      requires c != null ==> (c == child <==> child.id in l)
      requires c != null && c != child ==> c.id == l[|l| - 1]
      requires l != [] ==> l[|l| - 1] in n
      modifies n.Values
      ensures Tied(n) && View(n) == Append(old(View(n)), id, child.id, l)
    {
      hide Append, Tied, NodeOk, Named;
      InView(n, id);
      InView(n, child.id);
      if l != [] {
        InView(n, l[|l| - 1]);
      }
      AppendWrites(View(n), id, child.id, l);
      child.SetParent(this, n);
      child.SetLayer(layer + 1, n);
      if c == null {
        SetChildren(child, n);
        child.SetNext(null, n);
      } else if c != child {
        c.SetNext(child, n);
        child.SetNext(null, n);
      }
    }

    // Puts child at the end of this node's list unless it is already there, and nowhere takes it out.
    method AddChild(child: Node, ghost n: Nodes, ghost s: Mesh, ghost t: Tails) returns (change: bool)
      requires Rep(n, s, t) && Inside(n, this) && id in s.kids && id in s.layer
      requires Inside(n, child) && child.id != Root
      modifies n.Values
      ensures Tied(n) && View(n) == Append(old(View(n)), id, child.id, Walked(s.kids, t, id))
      ensures change <==> child.id !in Walked(s.kids, t, id)
      ensures t == map[] ==>
                if CanHang(s.kids, id, child.id) then Rep(n, Hang(s, id, child.id), map[]) else NoForest(View(n))
      ensures CanTake(s.kids, t, id, child.id) ==>
                Rep(n, Take(s, id, child.id), TakeTails(t, s.kids, id, child.id))
      ensures child != this ==> parent == old(parent)
    {
      hide Torn, Single, Acyclic, Append, Tied, CanHang, CanTake, NoForest, Walked, Take, TakeTails;
      TiedTo(n, id);
      ChildFacts(n, s, t, this, child);
      AppendLeaves(View(n), s, t, id, child.id);
      var c := Tail(child, n, s, t);
      Attach(c, child, Walked(s.kids, t, id), n);
      change := c != child;
      if child != this {
        AppendParent(old(View(n)), id, child.id, Walked(s.kids, t, id), id);
        TiedTo(n, id);
      }
    }
  }

  lemma CleanWalk(k: Kids, t: Tails, x: Id)
    requires x in k && Clean(k, t, x)
    ensures Walked(k, t, x) == k[x]
  {
    ReachSelf(k, x);
  }

  lemma FoundMember(k: Kids, t: Tails, x: Id, c: Id)
    requires x in k && (x in t ==> c !in t[x])
    ensures c in Walked(k, t, x) <==> c in k[x]
    ensures forall i: nat :: i < |Walked(k, t, x)| && Walked(k, t, x)[i] == c ==> i < |k[x]|
  {
  }

  // What bypassing the i-th member of a list finds, and that its one write is right
  lemma BypassFacts(n: Nodes, s: Mesh, t: Tails, x: Node, before: Node?, c: Node, i: nat)
    requires Rep(n, s, t) && Inside(n, x) && x.id in s.kids && i < |s.kids[x.id]| && NoTail(t, c.id)
    requires c == Nth(n, Walked(s.kids, t, x.id), i) && before == Nth(n, Walked(s.kids, t, x.id), i - 1)
    ensures Tied(n) && Inside(n, c.next) && Inside(n, before)
    ensures x.id in View(n) && (before != null ==> before.id in View(n))
    ensures Sound(Unlink(s, x.id, c.id)) && !Owned(Unlink(s, x.id, c.id).kids, c.id)
    ensures Torn(if before == null then View(n)[x.id := View(n)[x.id].(children := Ref(c.next))]
                 else View(n)[before.id := View(n)[before.id].(next := Ref(c.next))], Unlink(s, x.id, c.id), t)
  {
    hide NoTail, Sound, Unlink, Acyclic;
    Advance(n, s, t, x.id, i, c);
    if before != null { Advance(n, s, t, x.id, i - 1, before); }
    BypassTorn(View(n), s, t, x.id, i);
    UnlinkSound(s, x.id, c.id);
    assert View(n)[c.id].next == Ref(c.next) && NodeOk(n, c.id) && NodeOk(n, x.id);
  }

  lemma RepFrom(n: Nodes, s: Mesh, t: Tails)
    requires Tied(n) && Torn(View(n), s, t) && Sound(s)
    ensures Rep(n, s, t)
  {
  }

  lemma AppendParent(m: Memory, p: Id, c: Id, l: seq<Id>, y: Id)
    requires p in m && y in m && y != c
    ensures y in Append(m, p, c, l) && Append(m, p, c, l)[y].parent == m[y].parent
  {
  }

  lemma TiedTo(n: Nodes, y: Id)
    requires Tied(n) && y in n
    ensures y in View(n) && View(n)[y].parent == Ref(n[y].parent)
    ensures n[y].parent != null ==> n[y].parent.id in n && n[y].parent == n[n[y].parent.id]
  {
    assert NodeOk(n, y);
  }

  lemma ChildFacts(n: Nodes, s: Mesh, t: Tails, p: Node, child: Node)
    requires Rep(n, s, t) && Inside(n, p) && Inside(n, child) && p.id in s.kids
    ensures p.id in s.layer && child.id in s.kids && Torn(View(n), s, t) && Sound(s) && p.id in View(n)
    ensures var l := Walked(s.kids, t, p.id); l != [] ==> l[|l| - 1] in n
  {
    var l := Walked(s.kids, t, p.id);
    if l != [] {
      assert Chained(View(n), l, |l| - 1);
    }
  }

  lemma AppendLeaves(m: Memory, s: Mesh, t: Tails, p: Id, c: Id)
    requires Sound(s) && Torn(m, s, t) && p in s.kids && p in s.layer && c in s.kids && c != Root
    ensures p in m
    ensures t == map[] ==>
              if CanHang(s.kids, p, c)
              then Torn(Append(m, p, c, Walked(s.kids, t, p)), Hang(s, p, c), map[]) && Sound(Hang(s, p, c))
              else NoForest(Append(m, p, c, Walked(s.kids, t, p)))
    ensures CanTake(s.kids, t, p, c) ==>
              && Torn(Append(m, p, c, Walked(s.kids, t, p)), Take(s, p, c), TakeTails(t, s.kids, p, c))
              && Sound(Take(s, p, c))
  {
    hide Append, NoForest, Acyclic, Single, Torn, Take, TakeTails, Shape, CanTake;
    TornKeys(m, s, t);
    if t == map[] {
      assert Walked(s.kids, t, p) == s.kids[p];
      ShapeTorn(m, s);
      if CanHang(s.kids, p, c) {
        HangShape(m, s, p, c);
        ShapeTorn(Append(m, p, c, s.kids[p]), Hang(s, p, c));
      } else {
        HangTears(m, s, p, c);
      }
    }
    if CanTake(s.kids, t, p, c) {
      CanTakeFacts(s.kids, t, p, c);
      TakeTorn(m, s, t, p, c);
      TakeSound(s, p, c);
    }
  }

  lemma CanTakeFacts(k: Kids, t: Tails, p: Id, c: Id)
    requires CanTake(k, t, p, c)
    ensures Walked(k, t, p) == k[p] && !Reach(k, c, p)
  {
  }
}
