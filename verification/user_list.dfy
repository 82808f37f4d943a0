/** The user list, whose users cache the policy their groups give them. */
module UserLists {
  import opened Users

  datatype Auth = Auth(users: map<int, User>, groups: seq<Group>, policies: seq<Policy>)

  datatype Op =
    | AddUser(uid: int, info: Info)
    | RemoveUser(uid: int)
    | AddGroup(gid: int, name: string, description: string)
    | RemoveGroup(gid: int)
    | AddUserToGroup(uid: int, gid: int)
    | AddUserToGroups(uid: int, gids: seq<int>)
    | Purge(uid: int)
    | EditUser(uid: int, info: Info, gids: seq<int>)
    | AddPolicy(policy: Policy)

  // update_user_policy for one user, if listed
  function Updated(a: Auth, uid: int): Auth {
    if uid in a.users
    then a.(users := a.users[uid := a.users[uid].(policy := PolicyOf(a.policies, a.groups, uid))])
    else a
  }

  // update_user_policy for every user
  function UpdatedAll(a: Auth): Auth {
    a.(users := map u | u in a.users :: a.users[u].(policy := PolicyOf(a.policies, a.groups, u)))
  }

  predicate HasPolicy(ps: seq<Policy>, id: int) {
    exists p :: p in ps && p.id == id
  }

  function Apply(a: Auth, op: Op): Auth {
    match op
    case AddUser(uid, info) => if uid in a.users then a else a.(users := a.users[uid := User(uid, 0, info)])
    case RemoveUser(uid) => a.(users := a.users - {uid})
    case AddGroup(gid, name, description) =>
      if Clashes(a.groups, gid, name) then a
      else UpdatedAll(a.(groups := a.groups + [Group(gid, name, description, [])]))
    case RemoveGroup(gid) =>
      if HasGroup(a.groups, gid) then UpdatedAll(a.(groups := RemovedGroup(a.groups, gid))) else a
    case AddUserToGroup(uid, gid) =>
      if JoinedOne(a.groups, gid, uid) == a.groups then a
      else Updated(a.(groups := JoinedOne(a.groups, gid, uid)), uid)
    case AddUserToGroups(uid, gids) => Updated(a.(groups := JoinedAll(a.groups, uid, gids)), uid)
    case Purge(uid) => a.(groups := LeftAll(a.groups, uid))
    case EditUser(uid, info, gids) =>
      if uid !in a.users then a
      else
        var user := a.users[uid];
        Updated(Auth(a.users[uid := user.(info := info.(status := user.info.status))],
                     JoinedAll(LeftAll(a.groups, uid), uid, gids), a.policies), uid)
    case AddPolicy(p) => if HasPolicy(a.policies, p.id) then a else a.(policies := a.policies + [p])
  }

  // What the callers keep to: a new user is in no group, a user is purged from the groups only once
  // off the list, and policies of a group are read before the group.
  predicate Kept(a: Auth, op: Op) {
    match op
    case AddUser(uid, _) => uid in a.users || forall g :: g in a.groups ==> uid !in g.users
    case Purge(uid) => uid !in a.users
    case AddPolicy(p) => !HasGroup(a.groups, p.gid)
    case _ => true
  }

  // Each listed user's cached policy is the one recomputed over the current groups.
  predicate Current(a: Auth) {
    forall u :: u in a.users ==> a.users[u].id == u && a.users[u].policy == PolicyOf(a.policies, a.groups, u)
  }

  predicate Ok(a: Auth) {
    Current(a) && GroupsOk(a.groups)
  }

  /* Each operation keeps the cache current */

  lemma UpdatedAllCurrent(a: Auth)
    requires forall u :: u in a.users ==> a.users[u].id == u
    ensures Current(UpdatedAll(a)) && UpdatedAll(a).groups == a.groups
  {
    hide PolicyOf;
  }

  // Refreshing one user is enough when nobody else's membership changed.
  lemma UpdatedOne(a: Auth, users: map<int, User>, groups: seq<Group>, uid: int)
    requires Current(a) && forall u :: u != uid ==> SameFor(a.groups, groups, u)
    requires users.Keys == a.users.Keys
    requires forall u :: u in users ==> users[u].id == u && (u != uid ==> users[u] == a.users[u])
    ensures Current(Updated(Auth(users, groups, a.policies), uid))
  {
    hide PolicyOf, SameFor;
    forall u | u in users && u != uid
      ensures users[u].policy == PolicyOf(a.policies, groups, u)
    {
      SamePolicy(a.policies, a.groups, groups, u);
    }
  }

  lemma {:induction false} JoinedOneSame(gs: seq<Group>, gid: int, uid: int, u: int)
    requires u != uid
    ensures SameFor(gs, JoinedOne(gs, gid, uid), u)
  {
    if gs != [] && gs[0].id != gid {
      JoinedOneSame(gs[1..], gid, uid, u);
      assert forall i :: 1 <= i < |gs| ==> gs[i] == gs[1..][i - 1];
    }
  }

  lemma LeftAllSame(gs: seq<Group>, uid: int, u: int)
    requires u != uid
    ensures SameFor(gs, LeftAll(gs, uid), u)
  {
    forall i | 0 <= i < |gs|
      ensures u in gs[i].users <==> u in LeftAll(gs, uid)[i].users
    {
      ErasedOthers(gs[i].users, uid, u);
    }
  }

  lemma JoinedAllSame(gs: seq<Group>, uid: int, gids: seq<int>, u: int)
    requires u != uid
    ensures SameFor(gs, JoinedAll(gs, uid, gids), u)
  {
  }

  lemma SameForTrans(f: seq<Group>, g: seq<Group>, h: seq<Group>, u: int)
    requires SameFor(f, g, u) && SameFor(g, h, u)
    ensures SameFor(f, h, u)
  {
  }

  lemma StepCurrent(a: Auth, op: Op)
    requires Current(a) && Kept(a, op)
    ensures Current(Apply(a, op))
  {
    hide PolicyOf, SameFor, JoinedAll, LeftAll, JoinedOne, RemovedGroup;
    match op
    case AddUser(uid, info) =>
      if uid !in a.users { NoGroupNoPolicy(a.policies, a.groups, uid); }
    case RemoveUser(uid) =>
    case AddGroup(gid, name, description) =>
      UpdatedAllCurrent(a.(groups := a.groups + [Group(gid, name, description, [])]));
    case RemoveGroup(gid) =>
      UpdatedAllCurrent(a.(groups := RemovedGroup(a.groups, gid)));
    case AddUserToGroup(uid, gid) =>
      forall u | u != uid { JoinedOneSame(a.groups, gid, uid, u); }
      UpdatedOne(a, a.users, JoinedOne(a.groups, gid, uid), uid);
    case AddUserToGroups(uid, gids) =>
      forall u | u != uid { JoinedAllSame(a.groups, uid, gids, u); }
      UpdatedOne(a, a.users, JoinedAll(a.groups, uid, gids), uid);
    case Purge(uid) =>
      forall u | u in a.users
        ensures PolicyOf(a.policies, LeftAll(a.groups, uid), u) == PolicyOf(a.policies, a.groups, u)
      {
        LeftAllSame(a.groups, uid, u);
        SamePolicy(a.policies, a.groups, LeftAll(a.groups, uid), u);
      }
    case EditUser(uid, info, gids) =>
      if uid in a.users {
        var user := a.users[uid];
        forall u | u != uid
          ensures SameFor(a.groups, JoinedAll(LeftAll(a.groups, uid), uid, gids), u)
        {
          LeftAllSame(a.groups, uid, u);
          JoinedAllSame(LeftAll(a.groups, uid), uid, gids, u);
          SameForTrans(a.groups, LeftAll(a.groups, uid), JoinedAll(LeftAll(a.groups, uid), uid, gids), u);
        }
        UpdatedOne(a, a.users[uid := user.(info := info.(status := user.info.status))],
                   JoinedAll(LeftAll(a.groups, uid), uid, gids), uid);
      }
    case AddPolicy(p) =>
      forall u | u in a.users
        ensures PolicyOf(a.policies + [p], a.groups, u) == PolicyOf(a.policies, a.groups, u)
      {
        ForeignPolicy(a.policies, p, a.groups, u);
      }
  }

  /* Each operation keeps the groups in order */

  lemma {:induction false} RemovedGroupOk(gs: seq<Group>, gid: int)
    requires GroupsOk(gs)
    ensures GroupsOk(RemovedGroup(gs, gid))
    ensures forall g :: g in RemovedGroup(gs, gid) <==> g in gs && g.id != gid
  {
    if gs != [] {
      assert gs == [gs[0]] + gs[1..];
      if gs[0].id == gid {
        assert forall i :: 1 <= i < |gs| ==> gs[i].id != gid;
      } else {
        RemovedGroupOk(gs[1..], gid);
        var t := RemovedGroup(gs[1..], gid);
        forall j | 0 <= j < |t|
          ensures t[j].id != gs[0].id && t[j].name != gs[0].name
        {
          assert t[j] in t && t[j] in gs[1..];
        }
      }
    }
  }

  // Editing memberships keeps ids and names.
  predicate SameNames(gs: seq<Group>, hs: seq<Group>) {
    |gs| == |hs| && forall i :: 0 <= i < |gs| ==> gs[i].id == hs[i].id && gs[i].name == hs[i].name
  }

  lemma SameNamesOk(gs: seq<Group>, hs: seq<Group>)
    requires GroupsOk(gs) && SameNames(gs, hs)
    requires forall i :: 0 <= i < |hs| ==> NoRepeats(hs[i].users)
    ensures GroupsOk(hs)
  {
  }

  lemma {:induction false} JoinedOneAt(gs: seq<Group>, gid: int, uid: int, i: nat)
    requires i < |gs|
    ensures JoinedOne(gs, gid, uid)[i] == gs[i] || JoinedOne(gs, gid, uid)[i] == Joined(gs[i], uid)
  {
    if gs[0].id != gid && i > 0 {
      JoinedOneAt(gs[1..], gid, uid, i - 1);
    }
  }

  lemma JoinedOneOk(gs: seq<Group>, gid: int, uid: int)
    requires GroupsOk(gs)
    ensures GroupsOk(JoinedOne(gs, gid, uid))
  {
    hide JoinedOne;
    var hs := JoinedOne(gs, gid, uid);
    if gs == [] {
      JoinedNone(gid, uid);
    } else {
      JoinedOneAt(gs, gid, uid, 0);
      forall i | 0 <= i < |gs|
        ensures gs[i].id == hs[i].id && gs[i].name == hs[i].name && NoRepeats(hs[i].users)
      {
        JoinedOneAt(gs, gid, uid, i);
      }
      SameNamesOk(gs, hs);
    }
  }

  lemma JoinedNone(gid: int, uid: int)
    ensures JoinedOne([], gid, uid) == []
  {
  }

  lemma JoinedAllOk(gs: seq<Group>, uid: int, gids: seq<int>)
    requires GroupsOk(gs)
    ensures GroupsOk(JoinedAll(gs, uid, gids))
  {
    SameNamesOk(gs, JoinedAll(gs, uid, gids));
  }

  lemma LeftAllOk(gs: seq<Group>, uid: int)
    requires GroupsOk(gs)
    ensures GroupsOk(LeftAll(gs, uid))
    ensures |LeftAll(gs, uid)| == |gs| && forall i :: 0 <= i < |gs| ==> uid !in LeftAll(gs, uid)[i].users
  {
    forall i | 0 <= i < |gs|
      ensures NoRepeats(LeftAll(gs, uid)[i].users) && uid !in LeftAll(gs, uid)[i].users
    {
      ErasedIs(gs[i].users, uid);
    }
    SameNamesOk(gs, LeftAll(gs, uid));
  }

  lemma StepGroupsOk(a: Auth, op: Op)
    requires GroupsOk(a.groups)
    ensures GroupsOk(Apply(a, op).groups)
  {
    hide JoinedAll, LeftAll, JoinedOne, RemovedGroup, PolicyOf;
    match op
    case AddGroup(gid, name, description) =>
      if !Clashes(a.groups, gid, name) {
        assert forall i :: 0 <= i < |a.groups| ==> a.groups[i] in a.groups;
      }
    case RemoveGroup(gid) => RemovedGroupOk(a.groups, gid);
    case AddUserToGroup(uid, gid) => JoinedOneOk(a.groups, gid, uid);
    case AddUserToGroups(uid, gids) => JoinedAllOk(a.groups, uid, gids);
    case Purge(uid) => LeftAllOk(a.groups, uid);
    case EditUser(uid, info, gids) =>
      LeftAllOk(a.groups, uid);
      JoinedAllOk(LeftAll(a.groups, uid), uid, gids);
    case _ =>
  }

  /* Runs */

  ghost predicate Runs(a: Auth, ops: seq<Op>, b: Auth)
    decreases |ops|
  {
    if ops == [] then b == a else Kept(a, ops[0]) && Runs(Apply(a, ops[0]), ops[1..], b)
  }

  // Over every run the cached policies stay current, ids and names unique, members duplicate-free.
  lemma {:induction false} RunOk(a: Auth, ops: seq<Op>, b: Auth)
    requires Ok(a) && Runs(a, ops, b)
    ensures Ok(b)
    decreases |ops|
  {
    hide Apply, Kept, Current, GroupsOk;
    if ops != [] {
      StepCurrent(a, ops[0]);
      StepGroupsOk(a, ops[0]);
      RunOk(Apply(a, ops[0]), ops[1..], b);
    }
  }

  // So at any point of a run from the empty list, a listed user may do r exactly when it is root or
  // some policy of a group it is in shares a bit with r.
  lemma Permission(ops: seq<Op>, b: Auth, uid: int, r: Rules)
    requires Runs(Auth(map[], [], []), ops, b) && uid in b.users
    ensures Can(b.users[uid], r) <==>
            || uid == ROOT_ID
            || exists g, p :: g in b.groups && p in b.policies && uid in g.users && p.gid == g.id && Shares(p.rules, r)
  {
    hide Runs, Shares, PolicyOf;
    RunOk(Auth(map[], [], []), ops, b);
    PolicyMeans(b.policies, b.groups, uid, r);
  }

  // Editing a user leaves it in exactly the existing groups that were listed.
  lemma EditedMemberships(a: Auth, uid: int, info: Info, gids: seq<int>)
    requires GroupsOk(a.groups) && uid in a.users
    ensures var gs := Apply(a, EditUser(uid, info, gids)).groups;
            && SameNames(a.groups, gs)
            && forall i :: 0 <= i < |gs| ==> (uid in gs[i].users <==> gs[i].id in gids)
  {
    hide PolicyOf;
    LeftAllOk(a.groups, uid);
  }

  /* The callers' duties are exactly what the cache needs */

  lemma AddUserExact(a: Auth, uid: int, info: Info)
    requires Current(a) && uid !in a.users
    ensures Current(Apply(a, AddUser(uid, info))) <==>
            forall g, p :: g in a.groups && uid in g.users && p in a.policies && p.gid == g.id ==> p.rules == 0
  {
    hide PolicyOf;
    var b := Apply(a, AddUser(uid, info));
    assert b.users[uid].policy == 0;
    GrantsNothing(a.policies, a.groups, uid);
  }

  lemma PurgeExact(a: Auth, uid: int)
    requires Ok(a) && uid in a.users
    ensures Current(Apply(a, Purge(uid))) <==> a.users[uid].policy == 0
  {
    hide PolicyOf, LeftAll, SameFor;
    var b := Apply(a, Purge(uid));
    LeftAllOk(a.groups, uid);
    NoGroupNoPolicy(b.policies, b.groups, uid);
    forall u | u in a.users && u != uid
      ensures PolicyOf(b.policies, b.groups, u) == b.users[u].policy
    {
      LeftAllSame(a.groups, uid, u);
      SamePolicy(a.policies, a.groups, LeftAll(a.groups, uid), u);
    }
  }
}
