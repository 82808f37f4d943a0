/** What each operation on users and groups is for: who is listed, who is in which group, under which data. */
module Memberships {
  import opened Users
  import opened UserLists

  predicate UniqueIds(gs: seq<Group>) {
    forall i, j :: 0 <= i < j < |gs| ==> gs[i].id != gs[j].id
  }

  ghost predicate SameNamed(g: Group, h: Group) {
    h.id == g.id && h.name == g.name && h.description == g.description
  }

  lemma {:induction false} JoinedAt(gs: seq<Group>, gid: int, uid: int, i: nat)
    requires UniqueIds(gs) && i < |gs|
    ensures JoinedOne(gs, gid, uid)[i] == if gs[i].id == gid then Joined(gs[i], uid) else gs[i]
  {
    if i > 0 && gs[0].id != gid {
      JoinedAt(gs[1..], gid, uid, i - 1);
    }
  }

  // Who holds what after one group was joined: the user is in that group, last if new there, and nothing else changed.
  ghost predicate Gains(g: Group, h: Group, uid: int, gid: int) {
    && SameNamed(g, h)
    && (forall u :: u in h.users <==> u in g.users || (u == uid && g.id == gid))
    && (g.id == gid && uid !in g.users ==> h.users == g.users + [uid])
    && (g.id != gid || uid in g.users ==> h.users == g.users)
  }

  // Some group with this id does not hold the user.
  ghost predicate Joinable(gs: seq<Group>, uid: int, gid: int) {
    exists g :: g in gs && g.id == gid && uid !in g.users
  }

  ghost predicate Gained(gs: seq<Group>, hs: seq<Group>, uid: int, gid: int) {
    |hs| == |gs| && forall i :: 0 <= i < |gs| ==> Gains(gs[i], hs[i], uid, gid)
  }

  // After joining one group: members are who was one, and the user in that group; a change exactly when that is news.
  lemma JoinExact(gs: seq<Group>, uid: int, gid: int)
    requires UniqueIds(gs)
    ensures Gained(gs, JoinedOne(gs, gid, uid), uid, gid)
    ensures JoinedOne(gs, gid, uid) != gs <==> Joinable(gs, uid, gid)
  {
    hide JoinedOne;
    var hs := JoinedOne(gs, gid, uid);
    forall i | 0 <= i < |gs|
      ensures Gains(gs[i], hs[i], uid, gid)
      ensures hs[i] != gs[i] <==> gs[i].id == gid && uid !in gs[i].users
    {
      JoinedAt(gs, gid, uid, i);
    }
    if hs != gs {
      var i :| 0 <= i < |gs| && hs[i] != gs[i];
      assert gs[i] in gs;
    }
    if g :| g in gs && g.id == gid && uid !in g.users {
      var i :| 0 <= i < |gs| && gs[i] == g;
      assert hs[i] != gs[i];
    }
  }

  /* The whole state */

  predicate ListedAfter(a: Auth, op: Op, u: int) {
    match op
    case AddUser(uid, _) => u in a.users || u == uid
    case RemoveUser(uid) => u in a.users && u != uid
    case _ => u in a.users
  }

  function InfoAfter(a: Auth, op: Op, u: int): Info
    requires ListedAfter(a, op, u)
  {
    match op
    case AddUser(_, info) => if u in a.users then a.users[u].info else info
    case EditUser(uid, info, _) =>
      var was := a.users[u].info;
      if u == uid then Info(info.username, info.name, was.status, info.email, info.telegram) else was
    case _ => a.users[u].info
  }

  // Is u in the group g once the operation is done?
  predicate InAfter(a: Auth, op: Op, g: Group, u: int) {
    match op
    case AddUserToGroup(uid, gid) => u in g.users || (u == uid && g.id == gid)
    case AddUserToGroups(uid, gids) => u in g.users || (u == uid && g.id in gids)
    case Purge(uid) => u in g.users && u != uid
    case EditUser(uid, _, gids) => if u == uid && uid in a.users then g.id in gids else u in g.users
    case _ => u in g.users
  }

  ghost predicate GroupsAfter(a: Auth, op: Op, hs: seq<Group>) {
    var gs := a.groups;
    match op
    case AddGroup(gid, name, description) =>
      hs == if exists g :: g in gs && (g.id == gid || g.name == name) then gs
            else gs + [Group(gid, name, description, [])]
    case RemoveGroup(gid) =>
      || (hs == gs && forall g :: g in gs ==> g.id != gid)
      || exists i :: 0 <= i < |gs| && gs[i].id == gid && hs == gs[..i] + gs[i + 1..]
    case _ => |hs| == |gs| && forall i :: 0 <= i < |gs| ==> GroupAfter(a, op, gs[i], hs[i])
  }

  ghost predicate GroupAfter(a: Auth, op: Op, g: Group, h: Group) {
    SameNamed(g, h) && forall u :: u in h.users <==> InAfter(a, op, g, u)
  }

  predicate PolicyAfter(a: Auth, op: Op, p: Policy) {
    p in a.policies || (op == AddPolicy(p) && forall q :: q in a.policies ==> q.id != p.id)
  }

  // Who is listed, with which data
  lemma UsersAfter(a: Auth, op: Op, u: int)
    ensures u in Apply(a, op).users <==> ListedAfter(a, op, u)
    ensures u in Apply(a, op).users ==> Apply(a, op).users[u].info == InfoAfter(a, op, u)
  {
    hide PolicyOf, JoinedOne, JoinedAll, LeftAll, RemovedGroup, Clashes, HasPolicy, HasGroup;
  }

  // Whose cached policy the operation recomputes
  ghost predicate Recomputes(a: Auth, op: Op, u: int) {
    match op
    case AddGroup(gid, name, _) => forall g :: g in a.groups ==> g.id != gid && g.name != name
    case RemoveGroup(gid) => exists g :: g in a.groups && g.id == gid
    case AddUserToGroup(uid, gid) => u == uid && Joinable(a.groups, uid, gid)
    case AddUserToGroups(uid, _) => u == uid
    case EditUser(uid, _, _) => u == uid
    case _ => false
  }

  // The cache afterwards, whether or not it was current: recomputed over the new groups for these, untouched for all
  // others, and empty for a new user
  lemma CacheAfter(a: Auth, op: Op, u: int)
    requires UniqueIds(a.groups) && u in Apply(a, op).users
    ensures var b := Apply(a, op);
            b.users[u].policy ==
            if Recomputes(a, op, u) then PolicyOf(b.policies, b.groups, u)
            else if u in a.users then a.users[u].policy
            else 0
  {
    hide PolicyOf, JoinedOne, JoinedAll, LeftAll, RemovedGroup, Joinable;
    if op.AddUserToGroup? { JoinExact(a.groups, op.uid, op.gid); }
  }

  // Which policies there are
  lemma PoliciesAfter(a: Auth, op: Op, p: Policy)
    ensures p in Apply(a, op).policies <==> PolicyAfter(a, op, p)
  {
    hide PolicyOf, JoinedOne, JoinedAll, LeftAll, RemovedGroup, Clashes, HasGroup;
  }

  lemma {:induction false} RemovedWhere(gs: seq<Group>, gid: int) returns (i: nat)
    requires HasGroup(gs, gid)
    ensures i < |gs| && gs[i].id == gid && RemovedGroup(gs, gid) == gs[..i] + gs[i + 1..]
  {
    hide HasGroup;
    SomeGroup(gs, gid);
    if gs[0].id == gid {
      i := 0;
    } else {
      var j := RemovedWhere(gs[1..], gid);
      i := j + 1;
      Shifted(gs, j);
    }
  }

  lemma SomeGroup(gs: seq<Group>, gid: int)
    requires HasGroup(gs, gid)
    ensures gs != [] && (gs[0].id != gid ==> HasGroup(gs[1..], gid))
  {
    assert gs != [] ==> gs == [gs[0]] + gs[1..];
  }

  lemma Shifted(gs: seq<Group>, j: nat)
    requires j + 1 < |gs|
    ensures [gs[0]] + (gs[1..][..j] + gs[1..][j + 1..]) == gs[..j + 1] + gs[j + 2..]
  {
  }

  lemma LeftWithout(g: Group, uid: int)
    requires NoRepeats(g.users)
    ensures SameNamed(g, Left(g, uid)) && forall u :: u in Left(g, uid).users <==> u in g.users && u != uid
  {
    ErasedIs(g.users, uid);
    forall u | u != uid { ErasedOthers(g.users, uid, u); }
  }

  // One group of a list that keeps its groups
  lemma MembersAfter(a: Auth, op: Op, i: nat)
    requires GroupsOk(a.groups) && i < |a.groups| && !op.AddGroup? && !op.RemoveGroup?
    ensures |Apply(a, op).groups| == |a.groups| && GroupAfter(a, op, a.groups[i], Apply(a, op).groups[i])
  {
    hide PolicyOf, JoinedOne, Left;
    var gs := a.groups;
    LeftWithout(gs[i], match op case Purge(uid) => uid case EditUser(uid, _, _) => uid case _ => 0);
    match op
    case AddUserToGroup(uid, gid) => JoinedAt(gs, gid, uid, i);
    case _ =>
  }

  // Which groups there are, in which order, and who is in them
  lemma GroupsExact(a: Auth, op: Op)
    requires GroupsOk(a.groups)
    ensures GroupsAfter(a, op, Apply(a, op).groups)
  {
    hide PolicyOf, GroupAfter, JoinedOne, JoinedAll, LeftAll, RemovedGroup;
    if op.RemoveGroup? && HasGroup(a.groups, op.gid) {
      var i := RemovedWhere(a.groups, op.gid);
    } else if !op.AddGroup? && !op.RemoveGroup? {
      if a.groups == [] {
        GroupsNone(a, op);
      } else {
        forall i | 0 <= i < |a.groups| { MembersAfter(a, op, i); }
        MembersAfter(a, op, 0);
      }
    }
  }

  lemma GroupsNone(a: Auth, op: Op)
    requires a.groups == [] && !op.AddGroup?
    ensures Apply(a, op).groups == []
  {
    hide PolicyOf;
  }
}
