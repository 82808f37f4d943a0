/** Groups, policies, and the permission bits each user carries. */
module Users {
  const ROOT_ID := 0

  type Rules = bv32

  datatype Group = Group(id: int, name: string, description: string, users: seq<int>)

  datatype Policy = Policy(id: int, gid: int, rules: Rules)

  datatype Info = Info(username: string, name: string, status: int, email: string, telegram: string)

  datatype User = User(id: int, policy: Rules, info: Info)

  function And(x: Rules, y: Rules): Rules {
    x & y
  }

  function Or(x: Rules, y: Rules): Rules {
    x | y
  }

  /* Policies::get_policy: bitwise or over policies, then over groups */

  function GroupPolicy(ps: seq<Policy>, uid: int, g: Group): Rules {
    if ps == [] then 0
    else
      var p := ps[|ps| - 1];
      Or(GroupPolicy(ps[..|ps| - 1], uid, g), if g.id == p.gid && uid in g.users then p.rules else 0)
  }

  function PolicyOf(ps: seq<Policy>, gs: seq<Group>, uid: int): Rules {
    if gs == [] then 0
    else Or(PolicyOf(ps, gs[..|gs| - 1], uid), GroupPolicy(ps, uid, gs[|gs| - 1]))
  }

  predicate Shares(x: Rules, r: Rules) {
    And(x, r) != 0
  }

  lemma AndOr(x: Rules, y: Rules, r: Rules)
    ensures And(Or(x, y), r) == Or(And(x, r), And(y, r))
  {
  }

  lemma OrZero(x: Rules, y: Rules)
    ensures Or(x, y) == 0 <==> x == 0 && y == 0
  {
  }

  lemma SharesOr(x: Rules, y: Rules, r: Rules)
    ensures Shares(Or(x, y), r) <==> Shares(x, r) || Shares(y, r)
  {
    hide And, Or;
    AndOr(x, y, r);
    OrZero(And(x, r), And(y, r));
  }

  lemma SharesNone(r: Rules)
    ensures !Shares(0, r)
  {
  }

  lemma OrNone()
    ensures Or(0, 0) == 0
  {
  }

  lemma {:induction false} GroupPolicyMeans(ps: seq<Policy>, uid: int, g: Group, r: Rules)
    ensures Shares(GroupPolicy(ps, uid, g), r) <==>
            uid in g.users && exists p :: p in ps && p.gid == g.id && Shares(p.rules, r)
  {
    hide Shares, Or;
    SharesNone(r);
    if ps != [] {
      var q, p := ps[..|ps| - 1], ps[|ps| - 1];
      GroupPolicyMeans(q, uid, g, r);
      SharesOr(GroupPolicy(q, uid, g), if g.id == p.gid && uid in g.users then p.rules else 0, r);
      assert ps == q + [p];
    }
  }

  // A user's policy shares a bit with r exactly when some policy of some group with the user does.
  lemma {:induction false} PolicyMeans(ps: seq<Policy>, gs: seq<Group>, uid: int, r: Rules)
    ensures Shares(PolicyOf(ps, gs, uid), r) <==>
            exists g, p :: g in gs && p in ps && uid in g.users && p.gid == g.id && Shares(p.rules, r)
  {
    hide Shares, Or, GroupPolicy;
    SharesNone(r);
    if gs != [] {
      var f, g := gs[..|gs| - 1], gs[|gs| - 1];
      PolicyMeans(ps, f, uid, r);
      GroupPolicyMeans(ps, uid, g, r);
      SharesOr(PolicyOf(ps, f, uid), GroupPolicy(ps, uid, g), r);
      assert gs == f + [g];
    }
  }

  lemma {:induction false} GroupGrantsNothing(ps: seq<Policy>, uid: int, g: Group)
    ensures GroupPolicy(ps, uid, g) == 0 <==> (uid in g.users ==> forall p :: p in ps && p.gid == g.id ==> p.rules == 0)
  {
    hide Or;
    OrNone();
    if ps != [] {
      var q, p := ps[..|ps| - 1], ps[|ps| - 1];
      GroupGrantsNothing(q, uid, g);
      OrZero(GroupPolicy(q, uid, g), if g.id == p.gid && uid in g.users then p.rules else 0);
      assert ps == q + [p];
    }
  }

  // A user's policy is empty exactly when every policy of every group with the user is.
  lemma {:induction false} GrantsNothing(ps: seq<Policy>, gs: seq<Group>, uid: int)
    ensures PolicyOf(ps, gs, uid) == 0 <==>
            forall g, p :: g in gs && uid in g.users && p in ps && p.gid == g.id ==> p.rules == 0
  {
    hide Or, GroupPolicy;
    OrNone();
    if gs != [] {
      var f, g := gs[..|gs| - 1], gs[|gs| - 1];
      GrantsNothing(ps, f, uid);
      GroupGrantsNothing(ps, uid, g);
      OrZero(PolicyOf(ps, f, uid), GroupPolicy(ps, uid, g));
      assert gs == f + [g];
    }
  }

  // Authorization::can
  predicate Can(u: User, r: Rules) {
    u.id == ROOT_ID || Shares(u.policy, r)
  }

  /* What the group operations do to the list of groups */

  predicate HasGroup(gs: seq<Group>, gid: int) {
    exists g :: g in gs && g.id == gid
  }

  predicate Clashes(gs: seq<Group>, id: int, name: string) {
    exists g :: g in gs && (g.id == id || g.name == name)
  }

  function Joined(g: Group, uid: int): Group {
    if uid in g.users then g else g.(users := g.users + [uid])
  }

  function Erased(s: seq<int>, x: int): seq<int> {
    if s == [] then [] else if s[0] == x then s[1..] else [s[0]] + Erased(s[1..], x)
  }

  function Left(g: Group, uid: int): Group {
    g.(users := Erased(g.users, uid))
  }

  function RemovedGroup(gs: seq<Group>, gid: int): seq<Group> {
    if gs == [] then [] else if gs[0].id == gid then gs[1..] else [gs[0]] + RemovedGroup(gs[1..], gid)
  }

  // Only the first group with this id is looked at.
  function JoinedOne(gs: seq<Group>, gid: int, uid: int): (hs: seq<Group>)
    ensures |hs| == |gs|
  {
    if gs == [] then []
    else if gs[0].id == gid then [Joined(gs[0], uid)] + gs[1..]
    else [gs[0]] + JoinedOne(gs[1..], gid, uid)
  }

  function JoinedAll(gs: seq<Group>, uid: int, gids: seq<int>): seq<Group> {
    seq(|gs|, i requires 0 <= i < |gs| => if gs[i].id in gids then Joined(gs[i], uid) else gs[i])
  }

  function LeftAll(gs: seq<Group>, uid: int): seq<Group> {
    seq(|gs|, i requires 0 <= i < |gs| => Left(gs[i], uid))
  }

  predicate NoRepeats(s: seq<int>) {
    forall i, j :: 0 <= i < j < |s| ==> s[i] != s[j]
  }

  // Unique ids, unique names, duplicate-free members
  predicate GroupsOk(gs: seq<Group>) {
    && (forall i, j :: 0 <= i < j < |gs| ==> gs[i].id != gs[j].id && gs[i].name != gs[j].name)
    && (forall i :: 0 <= i < |gs| ==> NoRepeats(gs[i].users))
  }

  lemma {:induction false} ErasedWithin(s: seq<int>, x: int, y: int)
    requires y in Erased(s, x)
    ensures y in s
  {
    if s[0] != x && y != s[0] {
      ErasedWithin(s[1..], x, y);
    }
  }

  lemma {:induction false} ErasedOthers(s: seq<int>, x: int, y: int)
    requires y != x
    ensures y in Erased(s, x) <==> y in s
  {
    if s != [] {
      assert s == [s[0]] + s[1..];
      ErasedOthers(s[1..], x, y);
    }
  }

  // The first occurrence goes; without repeats that is all of them.
  lemma {:induction false} ErasedIs(s: seq<int>, x: int)
    requires NoRepeats(s)
    ensures NoRepeats(Erased(s, x)) && x !in Erased(s, x)
  {
    if s != [] {
      assert forall i :: 1 <= i < |s| ==> s[i] != s[0];
      if s[0] != x {
        ErasedIs(s[1..], x);
        var t := Erased(s[1..], x);
        forall j | 0 <= j < |t|
          ensures t[j] != s[0]
        {
          ErasedWithin(s[1..], x, t[j]);
        }
      }
    }
  }

  /* Groups with the same ids and the same answer about a user give it the same policy */

  predicate SameFor(gs: seq<Group>, hs: seq<Group>, uid: int) {
    |gs| == |hs| && forall i :: 0 <= i < |gs| ==> gs[i].id == hs[i].id && (uid in gs[i].users <==> uid in hs[i].users)
  }

  lemma {:induction false} SameGroupPolicy(ps: seq<Policy>, g: Group, h: Group, uid: int)
    requires g.id == h.id && (uid in g.users <==> uid in h.users)
    ensures GroupPolicy(ps, uid, g) == GroupPolicy(ps, uid, h)
  {
    hide Or;
    if ps != [] {
      SameGroupPolicy(ps[..|ps| - 1], g, h, uid);
    }
  }

  lemma {:induction false} SamePolicy(ps: seq<Policy>, gs: seq<Group>, hs: seq<Group>, uid: int)
    requires SameFor(gs, hs, uid)
    ensures PolicyOf(ps, gs, uid) == PolicyOf(ps, hs, uid)
  {
    hide Or, GroupPolicy;
    if gs != [] {
      SameGroupPolicy(ps, gs[|gs| - 1], hs[|hs| - 1], uid);
      SamePolicy(ps, gs[..|gs| - 1], hs[..|hs| - 1], uid);
    }
  }

  lemma {:induction false} NoGroupNoPolicy(ps: seq<Policy>, gs: seq<Group>, uid: int)
    requires forall g :: g in gs ==> uid !in g.users
    ensures PolicyOf(ps, gs, uid) == 0
  {
    hide Or, GroupPolicy;
    OrNone();
    if gs != [] {
      OutsideGroup(ps, uid, gs[|gs| - 1]);
      NoGroupNoPolicy(ps, gs[..|gs| - 1], uid);
    }
  }

  lemma {:induction false} OutsideGroup(ps: seq<Policy>, uid: int, g: Group)
    requires uid !in g.users
    ensures GroupPolicy(ps, uid, g) == 0
  {
    hide Or;
    OrNone();
    if ps != [] {
      OutsideGroup(ps[..|ps| - 1], uid, g);
    }
  }

  lemma ForeignGroup(ps: seq<Policy>, p: Policy, g: Group, uid: int)
    requires g.id != p.gid
    ensures GroupPolicy(ps + [p], uid, g) == GroupPolicy(ps, uid, g)
  {
    hide Or;
    OrRight(GroupPolicy(ps, uid, g));
    assert (ps + [p])[..|ps|] == ps;
  }

  lemma OrRight(x: Rules)
    ensures Or(x, 0) == x
  {
  }

  lemma {:induction false} ForeignPolicy(ps: seq<Policy>, p: Policy, gs: seq<Group>, uid: int)
    requires !HasGroup(gs, p.gid)
    ensures PolicyOf(ps + [p], gs, uid) == PolicyOf(ps, gs, uid)
  {
    hide Or;
    if gs != [] {
      assert gs[|gs| - 1] in gs;
      ForeignGroup(ps, p, gs[|gs| - 1], uid);
      ForeignPolicy(ps, p, gs[..|gs| - 1], uid);
    }
  }
}
