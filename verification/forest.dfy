/** Ordered forests given by child lists: paths, reachability, first-child spines. */
module Forest {
  import opened Addresses

  type Kids = map<Id, seq<Id>>

  ghost predicate Closed(k: Kids) {
    && Root in k
    && forall x, c :: x in k && c in k[x] ==> c in k && c != Root
  }

  // Every id sits in at most one list, at most once.
  ghost predicate Single(k: Kids) {
    && (forall x, y, c :: x in k && y in k && c in k[x] && c in k[y] ==> x == y)
    && (forall x :: x in k ==> Distinct(k[x]))
  }

  predicate Apart(l: seq<Id>, i: nat, j: nat)
    requires i < |l| && j < |l|
  {
    l[i] != l[j]
  }

  predicate Distinct(l: seq<Id>) {
    forall i: nat, j: nat {:trigger Apart(l, i, j)} :: i < j < |l| ==> Apart(l, i, j)
  }

  // A rank that falls along every link witnesses that there is no cycle.
  ghost predicate Ranked(k: Kids, r: map<Id, nat>) {
    && r.Keys == k.Keys
    && forall x, c :: x in k && c in k[x] ==> c in r && r[c] < r[x]
  }

  ghost predicate Acyclic(k: Kids) {
    exists r :: Ranked(k, r)
  }

  ghost predicate IsForest(k: Kids) {
    Closed(k) && Single(k) && Acyclic(k)
  }

  ghost predicate Owned(k: Kids, c: Id) {
    exists x :: x in k && c in k[x]
  }

  ghost function Owner(k: Kids, c: Id): (x: Id)
    requires Owned(k, c)
    ensures x in k && c in k[x]
  {
    var x :| x in k && c in k[x];
    x
  }

  ghost function RankOf(k: Kids): (r: map<Id, nat>)
    requires IsForest(k)
    ensures Ranked(k, r)
  {
    var r :| Ranked(k, r);
    r
  }

  /* Reachability */

  // y lies n links below x.
  ghost predicate Steps(k: Kids, n: nat, x: Id, y: Id) {
    if n == 0 then x == y && x in k
    else exists o :: Steps(k, n - 1, x, o) && o in k && y in k[o]
  }

  // y is x or lies below x.
  ghost predicate Reach(k: Kids, x: Id, y: Id) {
    exists n: nat :: Steps(k, n, x, y)
  }

  ghost predicate Below(k: Kids, x: Id, y: Id) {
    x != y && Reach(k, x, y)
  }

  lemma ReachSelf(k: Kids, x: Id)
    requires x in k
    ensures Reach(k, x, x)
  {
    assert Steps(k, 0, x, x);
  }

  lemma {:induction false} StepsSource(k: Kids, n: nat, x: Id, y: Id)
    requires Steps(k, n, x, y)
    ensures x in k
  {
    if n > 0 {
      var o :| Steps(k, n - 1, x, o) && o in k && y in k[o];
      StepsSource(k, n - 1, x, o);
    }
  }

  lemma ReachEnds(k: Kids, x: Id, y: Id)
    requires Reach(k, x, y) && Closed(k)
    ensures x in k && y in k
  {
    var n: nat :| Steps(k, n, x, y);
    StepsSource(k, n, x, y);
  }

  // A way down, then one link at the bottom.
  lemma ReachStep(k: Kids, x: Id, y: Id, c: Id)
    requires Reach(k, x, y) && y in k && c in k[y]
    ensures Reach(k, x, c)
  {
    var n: nat :| Steps(k, n, x, y);
    assert Steps(k, n + 1, x, c);
  }

  lemma ReachLink(k: Kids, x: Id, c: Id)
    requires x in k && c in k[x]
    ensures Reach(k, x, c)
  {
    ReachSelf(k, x);
    ReachStep(k, x, x, c);
  }

  lemma {:induction false} StepsTrans(k: Kids, n: nat, x: Id, y: Id, z: Id)
    requires Reach(k, x, y) && Steps(k, n, y, z)
    ensures Reach(k, x, z)
  {
    if n > 0 {
      var o :| Steps(k, n - 1, y, o) && o in k && z in k[o];
      StepsTrans(k, n - 1, x, y, o);
      ReachStep(k, x, o, z);
    }
  }

  lemma ReachTrans(k: Kids, x: Id, y: Id, z: Id)
    requires Reach(k, x, y) && Reach(k, y, z)
    ensures Reach(k, x, z)
  {
    var n: nat :| Steps(k, n, y, z);
    StepsTrans(k, n, x, y, z);
  }

  // One link at the top, then a way down.
  lemma ReachVia(k: Kids, x: Id, c: Id, y: Id)
    requires x in k && c in k[x] && Reach(k, c, y)
    ensures Reach(k, x, y)
  {
    ReachLink(k, x, c);
    ReachTrans(k, x, c, y);
  }

  lemma BottomLink(k: Kids, x: Id, y: Id) returns (o: Id)
    requires Below(k, x, y)
    ensures o in k && y in k[o] && Reach(k, x, o)
  {
    var n: nat :| Steps(k, n, x, y);
    o :| Steps(k, n - 1, x, o) && o in k && y in k[o];
  }

  lemma {:induction false} TopSteps(k: Kids, n: nat, x: Id, y: Id) returns (c: Id)
    requires Closed(k) && n > 0 && Steps(k, n, x, y)
    ensures x in k && c in k[x] && Reach(k, c, y)
  {
    var o :| Steps(k, n - 1, x, o) && o in k && y in k[o];
    if n == 1 {
      c := y;
      ReachSelf(k, y);
    } else {
      c := TopSteps(k, n - 1, x, o);
      ReachStep(k, c, o, y);
    }
  }

  lemma TopLink(k: Kids, x: Id, y: Id) returns (c: Id)
    requires Closed(k) && Below(k, x, y)
    ensures x in k && c in k[x] && Reach(k, c, y)
  {
    var n: nat :| Steps(k, n, x, y);
    c := TopSteps(k, n, x, y);
  }

  lemma {:induction false} StepsRank(k: Kids, r: map<Id, nat>, n: nat, x: Id, y: Id)
    requires Steps(k, n, x, y) && Ranked(k, r)
    ensures x in r && y in r && r[y] + n <= r[x]
  {
    if n > 0 {
      var o :| Steps(k, n - 1, x, o) && o in k && y in k[o];
      StepsRank(k, r, n - 1, x, o);
    }
  }

  lemma ReachRank(k: Kids, r: map<Id, nat>, x: Id, y: Id)
    requires Reach(k, x, y) && Ranked(k, r)
    ensures x in r && y in r && r[y] <= r[x] && (x != y ==> r[y] < r[x])
  {
    var n: nat :| Steps(k, n, x, y);
    StepsRank(k, r, n, x, y);
  }

  lemma NoCycle(k: Kids, x: Id, y: Id)
    requires IsForest(k) && Reach(k, x, y) && Reach(k, y, x)
    ensures x == y
  {
    ReachRank(k, RankOf(k), x, y);
    ReachRank(k, RankOf(k), y, x);
  }

  lemma LinkNoBack(k: Kids, x: Id, c: Id)
    requires IsForest(k) && x in k && c in k[x]
    ensures c != x && !Reach(k, c, x)
  {
    var r := RankOf(k);
    if Reach(k, c, x) {
      ReachRank(k, r, c, x);
    }
  }

  // Going up from a node other than the source leads to its one owner.
  lemma ReachOwner(k: Kids, x: Id, o: Id, y: Id)
    requires Single(k) && Below(k, x, y) && o in k && y in k[o]
    ensures Reach(k, x, o)
  {
    var z := BottomLink(k, x, y);
  }

  lemma UnownedOnlySelf(k: Kids, x: Id, y: Id)
    requires Reach(k, x, y) && !Owned(k, y)
    ensures x == y
  {
    if x != y {
      var o := BottomLink(k, x, y);
    }
  }

  lemma ChildlessReach(k: Kids, x: Id, y: Id)
    requires Closed(k) && Reach(k, x, y) && x in k && k[x] == []
    ensures x == y
  {
    if x != y {
      var c := TopLink(k, x, y);
    }
  }

  // Two nodes above the same node lie one above the other.
  lemma {:induction false} AncestorsChain(k: Kids, n: nat, x: Id, y: Id, z: Id)
    requires Single(k) && Steps(k, n, x, z) && Reach(k, y, z)
    ensures Reach(k, x, y) || Reach(k, y, x)
  {
    if n > 0 && y != z {
      var o :| Steps(k, n - 1, x, o) && o in k && z in k[o];
      ReachOwner(k, y, o, z);
      AncestorsChain(k, n - 1, x, y, o);
    }
  }

  lemma Comparable(k: Kids, x: Id, y: Id, z: Id)
    requires Single(k) && Reach(k, x, z) && Reach(k, y, z)
    ensures Reach(k, x, y) || Reach(k, y, x)
  {
    var n: nat :| Steps(k, n, x, z);
    AncestorsChain(k, n, x, y, z);
  }

  /* Comparing forests */

  // k' has the nodes of k and only links of k.
  ghost predicate Fewer(k': Kids, k: Kids) {
    k'.Keys == k.Keys && forall x, c :: x in k' && c in k'[x] ==> c in k[x]
  }

  lemma {:induction false} FewerSteps(k': Kids, k: Kids, n: nat, x: Id, y: Id)
    requires Fewer(k', k) && Steps(k', n, x, y)
    ensures Reach(k, x, y)
  {
    if n == 0 {
      ReachSelf(k, x);
    } else {
      var o :| Steps(k', n - 1, x, o) && o in k' && y in k'[o];
      FewerSteps(k', k, n - 1, x, o);
      ReachStep(k, x, o, y);
    }
  }

  lemma FewerReach(k': Kids, k: Kids, x: Id, y: Id)
    requires Fewer(k', k) && Reach(k', x, y)
    ensures Reach(k, x, y)
  {
    var n: nat :| Steps(k', n, x, y);
    FewerSteps(k', k, n, x, y);
  }

  lemma FewerRank(k': Kids, k: Kids, r: map<Id, nat>)
    requires Fewer(k', k) && Ranked(k, r)
    ensures Ranked(k', r)
  {
  }

  // What a new link from d to c can newly reach goes through that link.
  lemma {:induction false} StepsNewLink(k: Kids, d: Id, c: Id, n: nat, x: Id, y: Id)
    requires Closed(k) && d in k && c in k && Steps(k[d := k[d] + [c]], n, x, y)
    ensures Reach(k, x, y) || (Reach(k, x, d) && Reach(k, c, y))
  {
    var k' := k[d := k[d] + [c]];
    if n == 0 {
      ReachSelf(k, x);
    } else {
      var o :| Steps(k', n - 1, x, o) && o in k' && y in k'[o];
      StepsNewLink(k, d, c, n - 1, x, o);
      if y in k[o] {
        if Reach(k, x, o) { ReachStep(k, x, o, y); } else { ReachStep(k, c, o, y); }
      } else {
        ReachSelf(k, c);
      }
    }
  }

  lemma {:induction false} StepsOldLink(k: Kids, d: Id, c: Id, n: nat, x: Id, y: Id)
    requires d in k && Steps(k, n, x, y)
    ensures Reach(k[d := k[d] + [c]], x, y)
  {
    var k' := k[d := k[d] + [c]];
    if n == 0 {
      ReachSelf(k', x);
    } else {
      var o :| Steps(k, n - 1, x, o) && o in k && y in k[o];
      StepsOldLink(k, d, c, n - 1, x, o);
      ReachStep(k', x, o, y);
    }
  }

  lemma NewLinkReach(k: Kids, d: Id, c: Id, x: Id, y: Id)
    requires Closed(k) && d in k && c in k
    ensures Reach(k[d := k[d] + [c]], x, y) <==> Reach(k, x, y) || (Reach(k, x, d) && Reach(k, c, y))
  {
    var k' := k[d := k[d] + [c]];
    if Reach(k', x, y) {
      var n: nat :| Steps(k', n, x, y);
      StepsNewLink(k, d, c, n, x, y);
    }
    if Reach(k, x, y) {
      var n: nat :| Steps(k, n, x, y);
      StepsOldLink(k, d, c, n, x, y);
    }
    if Reach(k, x, d) && Reach(k, c, y) {
      var n: nat :| Steps(k, n, x, d);
      StepsOldLink(k, d, c, n, x, d);
      var m: nat :| Steps(k, m, c, y);
      StepsOldLink(k, d, c, m, c, y);
      ReachStep(k', x, d, c);
      ReachTrans(k', x, c, y);
    }
  }

  /* First-child spines */

  // y is the n-th node on the way down from x along first children.
  ghost predicate SpineAt(k: Kids, n: nat, x: Id, y: Id) {
    x in k && if n == 0 then x == y else k[x] != [] && SpineAt(k, n - 1, k[x][0], y)
  }

  // x, its first child, that child's first child, and so on.
  ghost function Spine(k: Kids, x: Id): set<Id> {
    set y | y in k && exists n: nat :: SpineAt(k, n, x, y)
  }

  lemma SpineUnfold(k: Kids, x: Id)
    requires Closed(k) && x in k
    ensures Spine(k, x) == {x} + if k[x] == [] then {} else Spine(k, k[x][0])
  {
    assert SpineAt(k, 0, x, x);
    var rest := if k[x] == [] then {} else Spine(k, k[x][0]);
    forall y | y in Spine(k, x)
      ensures y in {x} + rest
    {
      var n: nat :| SpineAt(k, n, x, y);
      if n > 0 {
        assert SpineAt(k, n - 1, k[x][0], y);
      }
    }
    forall y | y in rest
      ensures y in Spine(k, x)
    {
      var n: nat :| SpineAt(k, n, k[x][0], y);
      assert SpineAt(k, n + 1, x, y);
    }
  }

  lemma {:induction false} SpineSteps(k: Kids, n: nat, x: Id, y: Id)
    requires SpineAt(k, n, x, y)
    ensures Reach(k, x, y)
  {
    if n == 0 {
      ReachSelf(k, x);
    } else {
      SpineSteps(k, n - 1, k[x][0], y);
      ReachVia(k, x, k[x][0], y);
    }
  }

  lemma SpineReach(k: Kids, x: Id, y: Id)
    requires y in Spine(k, x)
    ensures Reach(k, x, y)
  {
    var n: nat :| SpineAt(k, n, x, y);
    SpineSteps(k, n, x, y);
  }

  // Every spine node but the top is the first child of a spine node.
  lemma {:induction false} SpineBottom(k: Kids, n: nat, x: Id, y: Id) returns (z: Id)
    requires Closed(k) && SpineAt(k, n, x, y) && y != x
    ensures z in Spine(k, x) && y in k[z]
  {
    SpineUnfold(k, x);
    SpineUnfold(k, k[x][0]);
    if k[x][0] == y {
      z := x;
    } else {
      z := SpineBottom(k, n - 1, k[x][0], y);
    }
  }

  lemma {:induction false} SpineSameAt(k: Kids, k': Kids, n: nat, x: Id, y: Id)
    requires k.Keys == k'.Keys && SpineAt(k, n, x, y)
    requires forall z :: Reach(k, x, z) && z in k ==> k[z] == k'[z]
    ensures SpineAt(k', n, x, y)
  {
    ReachSelf(k, x);
    if n > 0 {
      forall z | Reach(k, k[x][0], z) && z in k
        ensures k[z] == k'[z]
      {
        ReachVia(k, x, k[x][0], z);
      }
      SpineSameAt(k, k', n - 1, k[x][0], y);
    }
  }

  // The spine depends only on lists of nodes below its top.
  lemma SpineSame(k: Kids, k': Kids, x: Id)
    requires k.Keys == k'.Keys
    requires forall z :: Reach(k, x, z) && z in k ==> k[z] == k'[z]
    ensures Spine(k, x) <= Spine(k', x)
  {
    forall y | y in Spine(k, x)
      ensures y in Spine(k', x)
    {
      var n: nat :| SpineAt(k, n, x, y);
      SpineSameAt(k, k', n, x, y);
    }
  }
}
