/** Requests users send to devices, and the list of those in progress. */
module Requests {
  import opened Addresses
  import C = Connection
  import DeviceTree
  import Instances
  import TreeNode
  import Users

  datatype Method = Get | Post | Put | Delete

  datatype Kind =
    | Custom
    | AcLoad1On | AcLoad1Off | AcLoad2On | AcLoad2Off | AcLoad3On | AcLoad3Off
    | Reset | Uptime | ResetReason
    | GetRtc | UpdateRtc | GetFuse | UpdateFuse
    | WaiveRoot | PacketSensors | PacketRoute | PacketBoard | PacketConfig | PacketFullConfig
    | GetOta | UpdateOta
    | SendJob | GetJob | DeleteJob
    | GetApp | SendApp | RunApp | DeleteApp

  // The method each configured request is sent with
  function MethodOf(k: Kind): Method
    requires k != Custom
  {
    if k in {AcLoad1On, AcLoad1Off, AcLoad2On, AcLoad2Off, AcLoad3On, AcLoad3Off, UpdateRtc, UpdateFuse,
             WaiveRoot, SendJob, RunApp}
    then Put
    else if k in {Reset, UpdateOta, SendApp} then Post
    else if k in {DeleteJob, DeleteApp} then Delete
    else Get
  }

  // Only the reset is sent without asking for a confirmation.
  predicate Confirmable(k: Kind) {
    k != Reset
  }

  // The requests the list is for
  predicate Listed(k: Kind) {
    k != Custom && Confirmable(k)
  }

  function RuleOf(m: Method): Users.Rules {
    match m
    case Get => 8
    case Post => 16
    case Put => 32
    case Delete => 64
  }

  datatype Key = Key(addr: Mac, code: Method, kind: Kind)

  datatype Entry = Entry(key: Key, uid: int)

  function Keys(list: seq<Entry>): (ks: seq<Key>)
    ensures |ks| == |list| && forall i :: 0 <= i < |list| ==> ks[i] == list[i].key
  {
    seq(|list|, i requires 0 <= i < |list| => list[i].key)
  }

  function Dropped(list: seq<Entry>, k: Key): seq<Entry> {
    if list == [] then []
    else
      var e := list[|list| - 1];
      Dropped(list[..|list| - 1], k) + if e.key == k then [] else [e]
  }

  class InProgressList {
    var list: seq<Entry>

    constructor ()
      ensures list == []
    {
      list := [];
    }

    method Has(k: Key) returns (found: bool)
      ensures found <==> k in Keys(list)
    {
      for i := 0 to |list|
        invariant k !in Keys(list)[..i]
      {
        if list[i].key == k {
          assert Keys(list)[i] == k;
          return true;
        }
        assert Keys(list)[..i + 1] == Keys(list)[..i] + [list[i].key];
      }
      assert Keys(list)[..|list|] == Keys(list);
      return false;
    }

    method Add(k: Key, uid: int) returns (added: bool)
      modifies this
      ensures added <==> k !in Keys(old(list))
      ensures list == if added then old(list) + [Entry(k, uid)] else old(list)
    {
      var found := Has(k);
      if found {
        return false;
      }
      list := list + [Entry(k, uid)];
      return true;
    }

    method Remove(k: Key) returns (removed: bool)
      modifies this
      ensures removed <==> k in Keys(old(list))
      ensures list == Dropped(old(list), k)
    {
      var kept: seq<Entry> := [];
      removed := false;
      for i := 0 to |list|
        invariant list == old(list) && kept == Dropped(list[..i], k)
        invariant removed <==> k in Keys(list)[..i]
      {
        assert list[..i + 1][..i] == list[..i];
        assert Keys(list)[..i + 1] == Keys(list)[..i] + [list[i].key];
        if list[i].key == k {
          removed := true;
        } else {
          kept := kept + [list[i]];
        }
      }
      assert list[..|list|] == list && Keys(list)[..|list|] == Keys(list);
      list := kept;
    }
  }

  /* One step of the protocol */

  // What a user's message names: the request and the device if they are known, the method if the request is
  // custom and well formed; sent says whether the engine takes the message.
  datatype Request = Request(kind: Option<Kind>, device: Option<Mac>, custom: Option<Method>, sent: bool)

  datatype Outcome = Malformed | NotAllowed | Busy | Failed | Sent

  // outstanding: the sent messages whose callback is still to run
  datatype State = State(list: seq<Entry>, outstanding: seq<Key>)

  predicate WellFormed(r: Request) {
    r.kind.Some? && r.device.Some? && (r.kind.value == Custom ==> r.custom.Some?)
  }

  function KeyOf(r: Request): Key
    requires WellFormed(r)
  {
    var k := r.kind.value;
    Key(r.device.value, if k == Custom then r.custom.value else MethodOf(k), k)
  }

  predicate Allowed(u: Users.User, r: Request)
    requires WellFormed(r)
  {
    Users.Can(u, RuleOf(KeyOf(r).code))
  }

  // The root user may send anything; any other needs the bit of the method.
  predicate Entitled(u: Users.User, m: Method) {
    || u.id == 0
    || match m
       case Get => u.policy & 8 != 0
       case Post => u.policy & 16 != 0
       case Put => u.policy & 32 != 0
       case Delete => u.policy & 64 != 0
  }

  lemma AllowedExact(u: Users.User, m: Method)
    ensures Users.Can(u, RuleOf(m)) <==> Entitled(u, m)
  {
  }

  function OutcomeOf(s: State, u: Users.User, r: Request): Outcome {
    if !WellFormed(r) then Malformed
    else if !Allowed(u, r) then NotAllowed
    else if Listed(r.kind.value) && KeyOf(r) in Keys(s.list) then Busy
    else if r.sent then Sent
    else Failed
  }

  function Entered(s: State, u: Users.User, r: Request): seq<Entry>
    requires WellFormed(r)
  {
    if Listed(r.kind.value) then s.list + [Entry(KeyOf(r), u.id)] else s.list
  }

  function Asked(s: State, u: Users.User, r: Request): State {
    match OutcomeOf(s, u, r)
    case Sent => State(Entered(s, u, r), s.outstanding + [KeyOf(r)])
    case Failed =>
      State(if r.kind.value == Custom then s.list else Dropped(Entered(s, u, r), KeyOf(r)), s.outstanding)
    case _ => s
  }

  function Answered(s: State, i: nat): State
    requires i < |s.outstanding|
  {
    State(Dropped(s.list, s.outstanding[i]), s.outstanding[..i] + s.outstanding[i + 1..])
  }

  // When a request has which outcome, and what is left of it
  ghost predicate Processed(s: State, u: Users.User, r: Request, o: Outcome, s': State) {
    && (o == Malformed <==> !WellFormed(r))
    && (o != Sent ==> s' == s)
    && (WellFormed(r) ==>
          var k := KeyOf(r);
          var listed := k.kind != Custom && k.kind != Reset;
          var busy := listed && k in s.outstanding;
          && k.addr == r.device.value && k.kind == r.kind.value && (k.kind == Custom ==> k.code == r.custom.value)
          && (o == NotAllowed <==> !Entitled(u, k.code))
          && (o == Busy <==> Entitled(u, k.code) && busy)
          && (o == Sent <==> Entitled(u, k.code) && !busy && r.sent)
          && (o == Sent ==>
                s' == State(s.list + (if listed then [Entry(k, u.id)] else []), s.outstanding + [k])))
  }

  class Server {
    const requests: InProgressList
    var outstanding: seq<Key>

    ghost function Now(): State
      reads this, requests
    {
      State(requests.list, outstanding)
    }

    constructor ()
      ensures Now() == State([], [])
    {
      requests := new InProgressList();
      outstanding := [];
    }

    method ProcessRequest(u: Users.User, r: Request) returns (o: Outcome)
      modifies this, requests
      ensures o == OutcomeOf(old(Now()), u, r)
      ensures Now() == Asked(old(Now()), u, r)
      ensures WellFormed(r) ==> (o == NotAllowed <==> !Entitled(u, KeyOf(r).code))
      ensures o == NotAllowed ==> Now() == old(Now())
      ensures Agrees(old(Now())) ==> Processed(old(Now()), u, r, o, Now())
    {
      hide Users.Can, Dropped, Agrees, Processed, Entitled;
      if Agrees(Now()) { AskedExact(Now(), u, r); }
      if WellFormed(r) { AllowedExact(u, KeyOf(r).code); }
      if r.kind.None? || r.device.None? {
        return Malformed;
      }
      var kind := r.kind.value;
      if kind == Custom && r.custom.None? {
        return Malformed;
      }
      var code := if kind == Custom then r.custom.value else MethodOf(kind);
      if !Users.Can(u, RuleOf(code)) {
        return NotAllowed;
      }
      var key := Key(r.device.value, code, kind);
      if kind != Custom && Confirmable(kind) {
        var added := requests.Add(key, u.id);
        if !added {
          return Busy;
        }
      }
      if r.sent {
        outstanding := outstanding + [key];
        return Sent;
      }
      if kind != Custom {
        var _ := requests.Remove(key);
      }
      return Failed;
    }

    // The callback of an outstanding message; without a response its device goes from the tree.
    method RequestCallback(i: nat, response: bool, inst: Instances.Instance)
      requires i < |outstanding| && inst.Valid()
      modifies this, requests, inst`unconnected, inst`log, inst.tree, inst.tree.all.Values
      ensures Now() == Answered(old(Now()), i) && inst.Valid()
      ensures if response then inst.State() == old(inst.State())
              else C.Step(old(inst.State()), C.Remove(old(outstanding)[i].addr), inst.State())
    {
      hide C.Step, Dropped, TreeNode.Rep, DeviceTree.Indexed;
      var key := outstanding[i];
      if !response {
        var _ := inst.RemoveNodeFromTree(key.addr);
      }
      var _ := requests.Remove(key);
      outstanding := outstanding[..i] + outstanding[i + 1..];
    }
  }

  /* The list and the outstanding requests agree */

  function ListedOf(ks: seq<Key>): seq<Key> {
    if ks == [] then []
    else
      var k := ks[|ks| - 1];
      ListedOf(ks[..|ks| - 1]) + if Listed(k.kind) then [k] else []
  }

  ghost predicate NoDuplicates(m: multiset<Key>) {
    forall k :: m[k] <= 1
  }

  ghost predicate Agrees(s: State) {
    && NoDuplicates(multiset(Keys(s.list)))
    && multiset(Keys(s.list)) == multiset(ListedOf(s.outstanding))
  }

  lemma InMultiset(ks: seq<Key>, k: Key)
    ensures k in ks <==> multiset(ks)[k] > 0
  {
    assert k in ks <==> k in multiset(ks);
  }

  lemma {:induction false} ListedIn(ks: seq<Key>, k: Key)
    ensures k in ListedOf(ks) <==> k in ks && Listed(k.kind)
  {
    if ks != [] {
      ListedIn(ks[..|ks| - 1], k);
      assert ks == ks[..|ks| - 1] + [ks[|ks| - 1]];
    }
  }

  // Under agreement, what is listed is what is outstanding.
  lemma ListIs(s: State, k: Key)
    requires Agrees(s)
    ensures k in Keys(s.list) <==> k in s.outstanding && Listed(k.kind)
  {
    InMultiset(Keys(s.list), k);
    InMultiset(ListedOf(s.outstanding), k);
    ListedIn(s.outstanding, k);
  }

  lemma {:induction false} DroppedNone(list: seq<Entry>, k: Key)
    requires k !in Keys(list)
    ensures Dropped(list, k) == list
  {
    if list != [] {
      var init, e := list[..|list| - 1], list[|list| - 1];
      assert list == init + [e];
      KeysPushed(init, e);
      DroppedNone(init, k);
    }
  }

  lemma NothingToDrop(s: State, k: Key, uid: int)
    requires Agrees(s)
    ensures !Listed(k.kind) ==> Dropped(s.list, k) == s.list
    ensures k !in Keys(s.list) ==> Dropped(s.list + [Entry(k, uid)], k) == s.list
  {
    ListIs(s, k);
    if k !in Keys(s.list) {
      DroppedNone(s.list, k);
      assert (s.list + [Entry(k, uid)])[..|s.list|] == s.list;
    }
  }

  // A message the engine does not take leaves no trace: its own entry is taken back, and no other.
  lemma FailedLeavesAll(s: State, u: Users.User, r: Request)
    requires Agrees(s) && OutcomeOf(s, u, r) == Failed
    ensures Asked(s, u, r) == s
  {
    NothingToDrop(s, KeyOf(r), u.id);
  }

  lemma {:induction false} DroppedKeys(list: seq<Entry>, k: Key)
    ensures multiset(Keys(Dropped(list, k))) == multiset(Keys(list))[k := 0]
  {
    if list != [] {
      var init, e := list[..|list| - 1], list[|list| - 1];
      DroppedKeys(init, k);
      assert list == init + [e];
      KeysPushed(init, e);
      KeysPushed(Dropped(init, k), e);
      assert Dropped(init, k) + [] == Dropped(init, k);
    }
  }

  lemma KeysPushed(list: seq<Entry>, e: Entry)
    ensures Keys(list + [e]) == Keys(list) + [e.key]
    ensures multiset(Keys(list + [e])) == multiset(Keys(list)) + multiset{e.key}
  {
    assert Keys(list + [e]) == Keys(list) + [e.key];
  }

  lemma ListedPushed(ks: seq<Key>, k: Key)
    ensures multiset(ListedOf(ks + [k])) == multiset(ListedOf(ks)) + if Listed(k.kind) then multiset{k} else multiset{}
  {
    assert (ks + [k])[..|ks|] == ks;
  }

  lemma {:induction false} ListedRemoved(ks: seq<Key>, i: nat)
    requires i < |ks|
    ensures multiset(ListedOf(ks)) ==
            multiset(ListedOf(ks[..i] + ks[i + 1..])) + if Listed(ks[i].kind) then multiset{ks[i]} else multiset{}
  {
    hide ListedOf;
    var n := |ks| - 1;
    var init, last := ks[..n], ks[n];
    assert ks == init + [last];
    ListedPushed(init, last);
    if i == n {
      assert ks[..i] + ks[i + 1..] == init;
    } else {
      ListedRemoved(init, i);
      var rest := init[..i] + init[i + 1..];
      assert ks[..i] + ks[i + 1..] == rest + [last];
      ListedPushed(rest, last);
    }
  }

  lemma AskedAgrees(s: State, u: Users.User, r: Request)
    requires Agrees(s)
    ensures Agrees(Asked(s, u, r))
  {
    if OutcomeOf(s, u, r) == Failed {
      FailedLeavesAll(s, u, r);
    } else if OutcomeOf(s, u, r) == Sent {
      var k := KeyOf(r);
      InMultiset(Keys(s.list), k);
      KeysPushed(s.list, Entry(k, u.id));
      ListedPushed(s.outstanding, k);
    }
  }

  lemma AnsweredAgrees(s: State, i: nat)
    requires Agrees(s) && i < |s.outstanding|
    ensures Agrees(Answered(s, i))
  {
    var k := s.outstanding[i];
    DroppedKeys(s.list, k);
    ListedRemoved(s.outstanding, i);
    ListIs(s, k);
    InMultiset(Keys(s.list), k);
  }

  // A callback takes exactly its own entry from the list; that of a custom or unconfirmed request none.
  lemma OwnEntryOnly(s: State, i: nat)
    requires Agrees(s) && i < |s.outstanding|
    ensures var k := s.outstanding[i];
            && multiset(Keys(Answered(s, i).list)) ==
               multiset(Keys(s.list)) - (if Listed(k.kind) then multiset{k} else multiset{})
            && (!Listed(k.kind) ==> Answered(s, i).list == s.list)
            && (Listed(k.kind) ==> k in Keys(s.list) && k !in Keys(Answered(s, i).list))
  {
    var k := s.outstanding[i];
    DroppedKeys(s.list, k);
    ListIs(s, k);
    InMultiset(Keys(s.list), k);
    InMultiset(Keys(Answered(s, i).list), k);
    NothingToDrop(s, k, 0);
  }

  lemma {:induction false} DroppedJoined(a: seq<Entry>, b: seq<Entry>, k: Key)
    ensures Dropped(a + b, k) == Dropped(a, k) + Dropped(b, k)
  {
    if b == [] {
      assert a + b == a;
    } else {
      var init := b[..|b| - 1];
      DroppedJoined(a, init, k);
      assert (a + b)[..|a + b| - 1] == a + init;
    }
  }

  // That entry is the one with the callback's key; the others stay in order.
  lemma OwnEntry(s: State, i: nat) returns (j: nat)
    requires Agrees(s) && i < |s.outstanding| && Listed(s.outstanding[i].kind)
    ensures j < |s.list| && s.list[j].key == s.outstanding[i]
    ensures Answered(s, i) == State(s.list[..j] + s.list[j + 1..], s.outstanding[..i] + s.outstanding[i + 1..])
  {
    hide Dropped, Agrees;
    var l, k := s.list, s.outstanding[i];
    ListIs(s, k);
    j :| 0 <= j < |l| && l[j].key == k;
    OnlyOnce(s, j);
    assert l == l[..j] + ([l[j]] + l[j + 1..]);
    DroppedJoined(l[..j], [l[j]] + l[j + 1..], k);
    DroppedJoined([l[j]], l[j + 1..], k);
    DroppedNone(l[..j], k);
    DroppedNone(l[j + 1..], k);
    DroppedIt(l[j]);
  }

  lemma DroppedIt(e: Entry)
    ensures Dropped([e], e.key) == []
  {
  }

  lemma OnlyOnce(s: State, j: nat)
    requires Agrees(s) && j < |s.list|
    ensures s.list[j].key !in Keys(s.list[..j]) && s.list[j].key !in Keys(s.list[j + 1..])
  {
    var l, k := s.list, s.list[j].key;
    var a, b := Keys(l[..j]), Keys(l[j + 1..]);
    assert Keys(l) == a + [k] + b;
    InMultiset(a, k);
    InMultiset(b, k);
    assert multiset(Keys(l))[k] <= 1;
  }

  // A request is refused as busy exactly while the same one to the same device is outstanding.
  lemma BusyExact(s: State, u: Users.User, r: Request)
    requires Agrees(s) && WellFormed(r) && Allowed(u, r)
    ensures OutcomeOf(s, u, r) == Busy <==> Listed(r.kind.value) && KeyOf(r) in s.outstanding
  {
    ListIs(s, KeyOf(r));
  }

  // A request in any state that runs reach: refused as not allowed exactly if the user lacks the right, sent exactly
  // if it has it, the same request is not outstanding and the engine takes it; unless sent, it leaves no trace.
  lemma AskedExact(s: State, u: Users.User, r: Request)
    requires Agrees(s)
    ensures Processed(s, u, r, OutcomeOf(s, u, r), Asked(s, u, r))
  {
    hide Users.Can, Entitled, Dropped, Keys, Agrees;
    if WellFormed(r) {
      var k := KeyOf(r);
      AllowedExact(u, k.code);
      ListIs(s, k);
      if OutcomeOf(s, u, r) == Failed {
        FailedLeavesAll(s, u, r);
      }
    }
  }

  // The right each configured request takes
  lemma RightNeeded(s: State, u: Users.User, r: Request)
    requires WellFormed(r) && r.kind.value != Custom && u.id != 0
    ensures OutcomeOf(s, u, r) != NotAllowed <==>
            match r.kind.value
            case Uptime | ResetReason | GetRtc | GetFuse | PacketSensors | PacketRoute | PacketBoard | PacketConfig
               | PacketFullConfig | GetOta | GetJob | GetApp => u.policy & 8 != 0
            case Reset | UpdateOta | SendApp => u.policy & 16 != 0
            case DeleteJob | DeleteApp => u.policy & 64 != 0
            case _ => u.policy & 32 != 0
  {
    hide Users.Can, Keys;
    AllowedExact(u, KeyOf(r).code);
  }

  /* Runs */

  datatype Event =
    | Ask(user: Users.User, request: Request)
    | Callback(index: nat)

  // A callback without an outstanding message does not happen.
  function Step(s: State, e: Event): State {
    match e
    case Ask(u, r) => Asked(s, u, r)
    case Callback(i) => if i < |s.outstanding| then Answered(s, i) else s
  }

  function Run(events: seq<Event>): State {
    if events == [] then State([], []) else Step(Run(events[..|events| - 1]), events[|events| - 1])
  }

  // In any interleaving the list has no duplicates and its keys are those of the outstanding confirmable
  // requests that are not custom.
  lemma {:induction false} RunAgrees(events: seq<Event>)
    ensures Agrees(Run(events))
  {
    if events == [] {
      assert Keys([]) == [];
    } else {
      var s, e := Run(events[..|events| - 1]), events[|events| - 1];
      RunAgrees(events[..|events| - 1]);
      match e
      case Ask(u, r) => AskedAgrees(s, u, r);
      case Callback(i) =>
        if i < |s.outstanding| {
          AnsweredAgrees(s, i);
        }
    }
  }

  // Someone with the right asked for k, and it was sent.
  ghost predicate Asks(e: Event, k: Key) {
    && e.Ask? && WellFormed(e.request) && e.request.sent
    && KeyOf(e.request) == k && Entitled(e.user, k.code)
  }

  ghost predicate Wanted(events: seq<Event>, k: Key) {
    exists e :: e in events && Asks(e, k)
  }

  ghost predicate WantedBy(events: seq<Event>, entry: Entry) {
    exists e :: e in events && Asks(e, entry.key) && e.user.id == entry.uid
  }

  ghost predicate AllWanted(events: seq<Event>, s: State) {
    && (forall k :: k in s.outstanding ==> Wanted(events, k))
    && (forall entry :: entry in s.list ==> WantedBy(events, entry))
  }

  lemma {:induction false} DroppedWithin(list: seq<Entry>, k: Key, e: Entry)
    requires e in Dropped(list, k)
    ensures e in list
  {
    if list != [] && e in Dropped(list[..|list| - 1], k) {
      DroppedWithin(list[..|list| - 1], k, e);
    }
  }

  lemma StillWanted(before: seq<Event>, e: Event, s: State)
    requires AllWanted(before, s)
    ensures AllWanted(before + [e], s)
  {
    hide Entitled, WellFormed, KeyOf;
    forall k | k in s.outstanding
      ensures Wanted(before + [e], k)
    {
      assert Wanted(before, k);
      var f :| f in before && Asks(f, k);
      assert f in before + [e];
    }
    forall entry | entry in s.list
      ensures WantedBy(before + [e], entry)
    {
      assert WantedBy(before, entry);
      var f :| f in before && Asks(f, entry.key) && f.user.id == entry.uid;
      assert f in before + [e];
    }
  }

  lemma StepWanted(events: seq<Event>, e: Event, s: State)
    requires e in events && AllWanted(events, s) && Agrees(s)
    ensures AllWanted(events, Step(s, e))
  {
    hide WellFormed, KeyOf, OutcomeOf, Entitled, Listed, Wanted, WantedBy, Asks, Agrees, Entered;
    match e
    case Ask(u, r) => AskWanted(events, u, r, s);
    case Callback(i) =>
      if i < |s.outstanding| {
        var k := s.outstanding[i];
        forall entry | entry in Dropped(s.list, k) { DroppedWithin(s.list, k, entry); }
        assert forall l :: l in s.outstanding[..i] + s.outstanding[i + 1..] ==> l in s.outstanding;
      }
  }

  lemma AskWanted(events: seq<Event>, u: Users.User, r: Request, s: State)
    requires Ask(u, r) in events && AllWanted(events, s) && Agrees(s)
    ensures AllWanted(events, Asked(s, u, r))
  {
    hide Asked, OutcomeOf, Entitled, Listed, KeyOf, WellFormed, Agrees;
    AskedExact(s, u, r);
    if OutcomeOf(s, u, r) == Sent {
      var k := KeyOf(r);
      assert Asks(Ask(u, r), k);
      assert Wanted(events, k) && WantedBy(events, Entry(k, u.id));
    }
  }

  // In any interleaving every outstanding request was asked for, and every entry of the list is of one asked for, by a
  // user with the right to its method; the entry names that user.
  lemma {:induction false} RunWanted(events: seq<Event>)
    ensures AllWanted(events, Run(events))
  {
    hide Step, AllWanted, Agrees;
    if events == [] {
      NothingWanted();
    } else {
      var before, e := events[..|events| - 1], events[|events| - 1];
      RunWanted(before);
      RunAgrees(before);
      assert events == before + [e];
      StillWanted(before, e, Run(before));
      StepWanted(events, e, Run(before));
    }
  }

  lemma NothingWanted()
    ensures AllWanted([], State([], []))
  {
  }
}
