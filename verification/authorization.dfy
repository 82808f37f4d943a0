/** The group list and the user list as the objects the daemon edits. */
module Authorization {
  import opened Users
  import opened UserLists
  import opened Memberships

  /* Walking a list prefix by prefix */

  lemma {:induction false} SkipsPrefix(gs: seq<Group>, gid: int, uid: int, i: nat)
    requires i <= |gs| && forall j :: 0 <= j < i ==> gs[j].id != gid
    ensures RemovedGroup(gs, gid) == gs[..i] + RemovedGroup(gs[i..], gid)
    ensures JoinedOne(gs, gid, uid) == gs[..i] + JoinedOne(gs[i..], gid, uid)
    decreases i
  {
    hide RemovedGroup, JoinedOne;
    if i > 0 {
      SkipsPrefix(gs, gid, uid, i - 1);
      SkipsOne(gs[i - 1..], gid, uid);
      assert gs[i - 1..][1..] == gs[i..] && gs[..i] == gs[..i - 1] + [gs[i - 1]];
    } else {
      assert gs[..0] == [] && gs[0..] == gs;
    }
  }

  lemma NobodyJoins(gid: int, uid: int)
    ensures JoinedOne([], gid, uid) == []
  {
  }

  lemma JoinsFirst(gs: seq<Group>, gid: int, uid: int, i: nat)
    requires i < |gs| && gs[i].id == gid && forall j :: 0 <= j < i ==> gs[j].id != gid
    ensures JoinedOne(gs, gid, uid) == gs[i := Joined(gs[i], uid)]
    ensures JoinedOne(gs, gid, uid) != gs <==> uid !in gs[i].users
  {
    var hs := gs[i := Joined(gs[i], uid)];
    SkipsPrefix(gs, gid, uid, i);
    assert gs[i..][1..] == gs[i + 1..];
    assert hs == gs[..i] + [Joined(gs[i], uid)] + gs[i + 1..];
    assert hs[i] == Joined(gs[i], uid);
  }

  lemma SkipsOne(gs: seq<Group>, gid: int, uid: int)
    requires gs != [] && gs[0].id != gid
    ensures RemovedGroup(gs, gid) == [gs[0]] + RemovedGroup(gs[1..], gid)
    ensures JoinedOne(gs, gid, uid) == [gs[0]] + JoinedOne(gs[1..], gid, uid)
  {
  }

  lemma {:induction false} SkipsErased(s: seq<int>, x: int, i: nat)
    requires i <= |s| && x !in s[..i]
    ensures Erased(s, x) == s[..i] + Erased(s[i..], x)
  {
    if i > 0 {
      assert s[..i] == [s[0]] + s[1..][..i - 1] && s[1..][i - 1..] == s[i..];
      SkipsErased(s[1..], x, i - 1);
    } else {
      assert s[..0] == [] && s[0..] == s;
    }
  }

  class GroupList {
    var groups: seq<Group>

    constructor ()
      ensures groups == []
    {
      groups := [];
    }

    method Add(group: Group) returns (ok: bool)
      modifies this
      ensures ok <==> !Clashes(old(groups), group.id, group.name)
      ensures groups == if ok then old(groups) + [group] else old(groups)
    {
      for i := 0 to |groups|
        invariant groups == old(groups)
        invariant forall j :: 0 <= j < i ==> groups[j].id != group.id && groups[j].name != group.name
      {
        if groups[i].id == group.id || groups[i].name == group.name {
          return false;
        }
      }
      groups := groups + [group];
      return true;
    }

    method Remove(gid: int) returns (ok: bool)
      modifies this
      ensures ok <==> HasGroup(old(groups), gid)
      ensures groups == RemovedGroup(old(groups), gid)
    {
      var i := 0;
      while i < |groups|
        invariant 0 <= i <= |groups| && groups == old(groups)
        invariant forall j :: 0 <= j < i ==> groups[j].id != gid
      {
        if groups[i].id == gid {
          SkipsPrefix(groups, gid, 0, i);
          groups := groups[..i] + groups[i + 1..];
          return true;
        }
        i := i + 1;
      }
      SkipsPrefix(groups, gid, 0, i);
      return false;
    }

    method AddUser(gid: int, uid: int) returns (ok: bool)
      modifies this
      ensures groups == JoinedOne(old(groups), gid, uid)
      ensures ok <==> groups != old(groups)
      ensures UniqueIds(old(groups)) ==>
                Gained(old(groups), groups, uid, gid) && (ok <==> Joinable(old(groups), uid, gid))
    {
      hide Gained, Joinable, UniqueIds, JoinedOne;
      if UniqueIds(groups) { JoinExact(groups, uid, gid); }
      var i := 0;
      while i < |groups|
        invariant 0 <= i <= |groups| && groups == old(groups)
        invariant forall j :: 0 <= j < i ==> groups[j].id != gid
      {
        if groups[i].id == gid {
          JoinsFirst(groups, gid, uid, i);
          ok := uid !in groups[i].users;
          groups := groups[i := Joined(groups[i], uid)];
          return;
        }
        i := i + 1;
      }
      SkipsPrefix(groups, gid, uid, i);
      NobodyJoins(gid, uid);
      return false;
    }

    method AddUserToGroups(uid: int, gids: seq<int>)
      modifies this
      ensures groups == JoinedAll(old(groups), uid, gids)
    {
      var i := 0;
      while i < |groups|
        invariant 0 <= i <= |groups| == |old(groups)|
        invariant forall j :: 0 <= j < i ==> groups[j] == JoinedAll(old(groups), uid, gids)[j]
        invariant forall j :: i <= j < |groups| ==> groups[j] == old(groups)[j]
      {
        if groups[i].id in gids {
          groups := groups[i := Joined(groups[i], uid)];
        }
        i := i + 1;
      }
    }

    // Group::remove: the first occurrence goes.
    static method EraseUser(users: seq<int>, uid: int) returns (rest: seq<int>)
      ensures rest == Erased(users, uid)
    {
      for i := 0 to |users|
        invariant uid !in users[..i]
      {
        if users[i] == uid {
          SkipsErased(users, uid, i);
          return users[..i] + users[i + 1..];
        }
      }
      SkipsErased(users, uid, |users|);
      return users;
    }

    method RemoveUserFromAll(uid: int)
      modifies this
      ensures groups == LeftAll(old(groups), uid)
    {
      var i := 0;
      while i < |groups|
        invariant 0 <= i <= |groups| == |old(groups)|
        invariant forall j :: 0 <= j < i ==> groups[j] == LeftAll(old(groups), uid)[j]
        invariant forall j :: i <= j < |groups| ==> groups[j] == old(groups)[j]
      {
        var rest := EraseUser(groups[i].users, uid);
        groups := groups[i := groups[i].(users := rest)];
        i := i + 1;
      }
    }
  }

  method Pick(all: set<int>, done: set<int>) returns (x: int)
    requires done < all
    ensures x in all && x !in done
  {
    assert (forall y :: y in all ==> y in done) ==> all <= done;
    x :| x in all && x !in done;
  }

  class UserList {
    var list: map<int, User>
    const groups: GroupList
    var policies: seq<Policy>

    ghost function State(): Auth
      reads this, groups
    {
      Auth(list, groups.groups, policies)
    }

    constructor ()
      ensures State() == Auth(map[], [], []) && fresh(groups)
    {
      list := map[];
      groups := new GroupList();
      policies := [];
    }

    method GroupRules(uid: int, g: Group) returns (rules: Rules)
      ensures rules == GroupPolicy(policies, uid, g)
    {
      hide Or;
      rules := 0;
      for i := 0 to |policies|
        invariant rules == GroupPolicy(policies[..i], uid, g)
      {
        var p := policies[i];
        assert policies[..i + 1][..i] == policies[..i] && policies[..i + 1][i] == p;
        if g.id == p.gid && uid in g.users {
          rules := Or(rules, p.rules);
        } else {
          OrRight(rules);
        }
      }
      assert policies[..|policies|] == policies;
    }

    method GetPolicy(uid: int) returns (rules: Rules)
      ensures rules == PolicyOf(policies, groups.groups, uid)
    {
      hide Or, GroupPolicy;
      rules := 0;
      var gs := groups.groups;
      for i := 0 to |gs|
        invariant rules == PolicyOf(policies, gs[..i], uid)
      {
        assert gs[..i + 1][..i] == gs[..i] && gs[..i + 1][i] == gs[i];
        var more := GroupRules(uid, gs[i]);
        rules := Or(rules, more);
      }
      assert gs[..|gs|] == gs;
    }

    method UpdateUserPolicy(uid: int)
      modifies this`list
      ensures State() == Updated(old(State()), uid)
    {
      hide PolicyOf;
      if uid in list {
        var rules := GetPolicy(uid);
        list := list[uid := list[uid].(policy := rules)];
      }
    }

    method UpdateAllPolicies()
      modifies this`list
      ensures State() == UpdatedAll(old(State()))
    {
      hide PolicyOf;
      var uids := list.Keys;
      var done := {};
      while done != uids
        invariant done <= uids == list.Keys == old(list).Keys
        invariant forall u :: u in list ==>
                                list[u] == if u in done then UpdatedAll(old(State())).users[u] else old(list)[u]
        decreases uids - done
      {
        var uid := Pick(uids, done);
        var rules := GetPolicy(uid);
        list := list[uid := list[uid].(policy := rules)];
        done := done + {uid};
      }
    }

    method Add(uid: int, info: Info) returns (ok: bool)
      modifies this`list
      ensures ok <==> uid !in old(list)
      ensures State() == Apply(old(State()), Op.AddUser(uid, info))
    {
      ok := uid !in list;
      if ok {
        list := list[uid := User(uid, 0, info)];
      }
    }

    method Remove(uid: int) returns (ok: bool)
      modifies this`list
      ensures ok <==> uid in old(list)
      ensures State() == Apply(old(State()), Op.RemoveUser(uid))
    {
      ok := uid in list;
      list := list - {uid};
    }

    // Adds the group twice; the second attempt always clashes with the first.
    method AddGroup(gid: int, name: string, description: string) returns (ok: bool)
      modifies this`list, groups
      ensures !ok
      ensures State() == Apply(old(State()), Op.AddGroup(gid, name, description))
    {
      hide PolicyOf;
      var g := Group(gid, name, description, []);
      var ret := groups.Add(g);
      if ret {
        assert groups.groups[|groups.groups| - 1] == g;
        UpdateAllPolicies();
      }
      assert Clashes(groups.groups, gid, name);
      ok := groups.Add(g);
    }

    method RemoveGroup(gid: int) returns (ok: bool)
      modifies this`list, groups
      ensures ok <==> HasGroup(old(groups.groups), gid)
      ensures State() == Apply(old(State()), Op.RemoveGroup(gid))
    {
      hide PolicyOf;
      NoSuchGroup(groups.groups, gid);
      ok := groups.Remove(gid);
      if ok {
        UpdateAllPolicies();
      }
    }

    method AddUserToGroup(uid: int, gid: int) returns (ok: bool)
      modifies this`list, groups
      ensures ok <==> groups.groups != old(groups.groups)
      ensures State() == Apply(old(State()), Op.AddUserToGroup(uid, gid))
      ensures UniqueIds(old(groups.groups)) ==>
                && Gained(old(groups.groups), groups.groups, uid, gid)
                && (ok <==> Joinable(old(groups.groups), uid, gid))
    {
      hide PolicyOf, JoinedOne, Gained, Joinable;
      ok := groups.AddUser(gid, uid);
      if ok {
        UpdateUserPolicy(uid);
      }
    }

    method AddUserToGroups(uid: int, gids: seq<int>)
      modifies this`list, groups
      ensures State() == Apply(old(State()), Op.AddUserToGroups(uid, gids))
    {
      hide PolicyOf, JoinedAll;
      groups.AddUserToGroups(uid, gids);
      UpdateUserPolicy(uid);
    }

    // Leaves every cached policy alone.
    method RemoveUserFromAllGroups(uid: int)
      modifies groups
      ensures State() == Apply(old(State()), Op.Purge(uid))
    {
      hide PolicyOf, LeftAll;
      groups.RemoveUserFromAll(uid);
    }

    method EditUser(uid: int, info: Info, gids: seq<int>) returns (ok: bool)
      modifies this`list, groups
      ensures ok <==> uid in old(list)
      ensures State() == Apply(old(State()), Op.EditUser(uid, info, gids))
    {
      hide PolicyOf, LeftAll, JoinedAll;
      if uid !in list {
        return false;
      }
      var user := list[uid];
      list := list[uid := user.(info := info.(status := user.info.status))];
      groups.RemoveUserFromAll(uid);
      groups.AddUserToGroups(uid, gids);
      UpdateUserPolicy(uid);
      return true;
    }

    method AddPolicy(p: Policy) returns (ok: bool)
      modifies this`policies
      ensures ok <==> !HasPolicy(old(policies), p.id)
      ensures State() == Apply(old(State()), Op.AddPolicy(p))
    {
      for i := 0 to |policies|
        invariant policies == old(policies)
        invariant forall j :: 0 <= j < i ==> policies[j].id != p.id
      {
        if policies[i].id == p.id {
          return false;
        }
      }
      policies := policies + [p];
      return true;
    }
  }

  lemma NoSuchGroup(gs: seq<Group>, gid: int)
    ensures !HasGroup(gs, gid) ==> RemovedGroup(gs, gid) == gs
  {
    if !HasGroup(gs, gid) {
      assert forall j :: 0 <= j < |gs| ==> gs[j] in gs;
      SkipsPrefix(gs, gid, 0, |gs|);
    }
  }
}
