/** Sensor readings of one device: the windows kept in memory and the rows logged to the database. */
module Sensors {
  import opened Addresses
  import opened Words

  const MAX := 20
  const PACKET := 8

  datatype Reading = Reading(time: nat, value: int)

  datatype Key = Key(kind: nat, index: nat)

  datatype Row = Row(key: Key, reading: Reading)

  type Windows = map<Key, seq<Reading>>

  /* One window */

  function Pushed(list: seq<Reading>, r: Reading): seq<Reading> {
    var longer := list + [r];
    if |longer| > MAX then longer[1..] else longer
  }

  predicate Changes(list: seq<Reading>, value: int) {
    list == [] || list[|list| - 1].value != value
  }

  lemma ChangesNone(value: int)
    ensures Changes([], value)
  {
  }

  class ValueList {
    var list: seq<Reading>

    constructor ()
      ensures list == []
    {
      list := [];
    }

    method Add(r: Reading)
      modifies this
      ensures list == Pushed(old(list), r)
    {
      list := list + [r];
      if |list| > MAX {
        list := list[1..];
      }
    }

    method AddChange(r: Reading) returns (added: bool)
      modifies this
      ensures added == Changes(old(list), r.value)
      ensures list == if added then Pushed(old(list), r) else old(list)
    {
      if |list| == 0 {
        Add(r);
        return true;
      }
      if list[|list| - 1].value == r.value {
        return false;
      }
      Add(r);
      return true;
    }
  }

  /* The windows of all keys */

  function Window(lists: Windows, k: Key): seq<Reading> {
    if k in lists then lists[k] else []
  }

  predicate Accepts(lists: Windows, k: Key, value: int, addChange: bool) {
    addChange ==> Changes(Window(lists, k), value)
  }

  function Stored(lists: Windows, k: Key, r: Reading): Windows {
    lists[k := Pushed(Window(lists, k), r)]
  }

  class SensorList {
    var list: map<Key, ValueList>

    constructor ()
      ensures Valid() && View() == map[]
    {
      list := map[];
    }

    ghost predicate Valid()
      reads this
    {
      forall k, l :: k in list && l in list && list[k] == list[l] ==> k == l
    }

    ghost function Repr(): set<ValueList>
      reads this
    {
      set k | k in list :: list[k]
    }

    ghost function View(): Windows
      reads this, Repr()
    {
      map k | k in list :: list[k].list
    }

    method Add(k: Key, r: Reading, addChange: bool) returns (added: bool)
      requires Valid()
      modifies this, Repr()
      ensures Valid() && fresh(Repr() - old(Repr()))
      ensures added == Accepts(old(View()), k, r.value, addChange)
      ensures View() == if added then Stored(old(View()), k, r) else old(View())
    {
      hide Pushed, Changes;
      ChangesNone(r.value);
      if k in list {
        if addChange {
          added := list[k].AddChange(r);
          return;
        } else {
          list[k].Add(r);
        }
      } else {
        var values := new ValueList();
        list := list[k := values];
        values.Add(r);
      }
      return true;
    }

    // Adds rows backwards under a key that has no window yet.
    method Replay(k: Key, rows: seq<Reading>)
      requires Valid() && k !in list && 0 < |rows| <= MAX
      modifies this, Repr()
      ensures Valid() && fresh(Repr() - old(Repr()))
      ensures View() == old(View())[k := Reversed(rows)]
    {
      hide Stored;
      var i := |rows| - 1;
      var _ := Add(k, rows[i], false);
      StoredFirst(old(View()), k, rows);
      while i > 0
        invariant 0 <= i < |rows| && Valid() && fresh(Repr() - old(Repr()))
        invariant View() == old(View())[k := Reversed(rows[i..])]
      {
        StoredNext(old(View()), k, rows, i);
        i := i - 1;
        var _ := Add(k, rows[i], false);
      }
      assert rows[0..] == rows;
    }

    // The replay at start-up: keys are those of the log, answers what the queries for them gave.
    method ReadValues(keys: seq<Key>, answers: map<Key, seq<Reading>>)
      requires Valid() && View() == map[]
      requires forall i, j :: 0 <= i < j < |keys| ==> keys[i] != keys[j]
      requires forall k :: k in keys ==> k in answers && 0 < |answers[k]| <= MAX
      modifies this, Repr()
      ensures Valid() && View() == Reloaded(keys, answers)
    {
      hide Reloaded;
      var n := 0;
      ReloadedNone(answers);
      while n < |keys|
        invariant 0 <= n <= |keys| && Valid() && fresh(Repr() - old(Repr()))
        invariant View() == Reloaded(keys[..n], answers)
      {
        var k := keys[n];
        ReloadedNext(keys, answers, n);
        assert k !in View();
        Replay(k, answers[k]);
        n := n + 1;
      }
      assert keys[..n] == keys;
    }
  }

  lemma ReloadedNone(answers: map<Key, seq<Reading>>)
    ensures Reloaded([], answers) == map[]
  {
  }

  lemma ReloadedNext(keys: seq<Key>, answers: map<Key, seq<Reading>>, n: nat)
    requires n < |keys| && forall k :: k in keys ==> k in answers
    requires forall i, j :: 0 <= i < j < |keys| ==> keys[i] != keys[j]
    ensures keys[n] !in Reloaded(keys[..n], answers)
    ensures Reloaded(keys[..n + 1], answers) == Reloaded(keys[..n], answers)[keys[n] := Reversed(answers[keys[n]])]
  {
    assert keys[..n + 1] == keys[..n] + [keys[n]];
  }

  lemma StoredFirst(lists: Windows, k: Key, rows: seq<Reading>)
    requires k !in lists && rows != []
    ensures Stored(lists, k, rows[|rows| - 1]) == lists[k := Reversed(rows[|rows| - 1..])]
  {
    assert rows[|rows| - 1..] == [rows[|rows| - 1]];
  }

  lemma StoredNext(lists: Windows, k: Key, rows: seq<Reading>, i: nat)
    requires 0 < i < |rows| <= MAX
    ensures Stored(lists[k := Reversed(rows[i..])], k, rows[i - 1]) == lists[k := Reversed(rows[i - 1..])]
  {
    assert rows[i - 1..] == [rows[i - 1]] + rows[i..];
  }

  function Reversed(s: seq<Reading>): (r: seq<Reading>)
    ensures |r| == |s| && forall i :: 0 <= i < |s| ==> r[i] == s[|s| - 1 - i]
  {
    if s == [] then [] else Reversed(s[1..]) + [s[0]]
  }

  function Reloaded(keys: seq<Key>, answers: map<Key, seq<Reading>>): Windows
    requires forall k :: k in keys ==> k in answers
  {
    map k | k in keys :: Reversed(answers[k])
  }

  /* Memory and log together */

  datatype State = State(lists: Windows, log: seq<Row>)

  // One reading, and whether its sensor type keeps changes only
  datatype Op = Op(row: Row, addChange: bool)

  function Update(s: State, op: Op): State {
    var k, r := op.row.key, op.row.reading;
    if Accepts(s.lists, k, r.value, op.addChange) then State(Stored(s.lists, k, r), s.log + [op.row]) else s
  }

  function Run(s: State, ops: seq<Op>): State {
    if ops == [] then s else Update(Run(s, ops[..|ops| - 1]), ops[|ops| - 1])
  }

  function RowOf(packet: seq<Byte>, time: nat): Row
    requires |packet| == PACKET
  {
    var kind := packet[0] as int + 256 * packet[1] as int + 65536 * packet[2] as int;
    Row(Key(kind, packet[3]), Reading(time, Signed(packet[4..])))
  }

  // The bytes a sensor sends
  function PacketOf(k: Key, value: int): (packet: seq<Byte>)
    requires k.kind < 0x100_0000 && k.index < 256 && Int32(value)
    ensures |packet| == PACKET
  {
    [k.kind % 256, k.kind / 256 % 256, k.kind / 65536, k.index] + Bytes(value)
  }

  lemma PacketRoundTrip(k: Key, value: int, time: nat)
    requires k.kind < 0x100_0000 && k.index < 256 && Int32(value)
    ensures RowOf(PacketOf(k, value), time) == Row(k, Reading(time, value))
  {
    hide Bytes, Signed;
    SignedBytes(value);
    assert PacketOf(k, value)[4..] == Bytes(value);
    var x := k.kind / 256;
    assert x / 256 == k.kind / 65536;
    assert k.kind == x * 256 + k.kind % 256 && x == x / 256 * 256 + x % 256;
  }

  // The layout of a reading: three bytes of type and four of value, the lowest first, and the index between them
  lemma PacketLayout(packet: seq<Byte>, time: nat)
    requires |packet| == PACKET
    ensures var row := RowOf(packet, time);
            && row.key == Key(Little(packet[..3]), packet[3]) && row.reading.time == time
            && Int32(row.reading.value) && (row.reading.value - Little(packet[4..])) % U32 == 0
  {
    hide Little, Signed, Unsigned;
    LittleThree(packet[..3]);
    UnsignedLittle(packet[4..]);
  }

  function AddsChanges(types: map<nat, bool>, kind: nat): bool {
    kind in types && types[kind]
  }

  function OpOf(packet: seq<Byte>, time: nat, types: map<nat, bool>): Op
    requires |packet| == PACKET
  {
    var row := RowOf(packet, time);
    Op(row, AddsChanges(types, row.key.kind))
  }

  // The readings of a frame; times holds the clock at each of them.
  function Ops(data: seq<Byte>, times: seq<nat>, types: map<nat, bool>): (ops: seq<Op>)
    requires |times| >= |data| / PACKET
    ensures |ops| == |data| / PACKET
  {
    seq(|data| / PACKET,
        i requires 0 <= i < |data| / PACKET => OpOf(data[PACKET * i..PACKET * i + PACKET], times[i], types))
  }

  /* A frame as the device makes it: readings one after the other, and what is too short to be one */

  datatype Message = Message(key: Key, value: int)

  type Measured = m: Message | m.key.kind < 0x100_0000 && m.key.index < 256 && Int32(m.value)
    witness Message(Key(0, 0), 0)

  function Frame(ms: seq<Measured>, rest: seq<Byte>): (data: seq<Byte>)
    ensures |data| == PACKET * |ms| + |rest|
  {
    if ms == [] then rest else PacketOf(ms[0].key, ms[0].value) + Frame(ms[1..], rest)
  }

  lemma {:induction false} FrameAt(ms: seq<Measured>, rest: seq<Byte>, i: nat)
    requires i < |ms|
    ensures var data := Frame(ms, rest);
            PACKET * i + PACKET <= |data| && data[PACKET * i..PACKET * i + PACKET] == PacketOf(ms[i].key, ms[i].value)
  {
    hide PacketOf;
    var data := Frame(ms, rest);
    var first, more := PacketOf(ms[0].key, ms[0].value), Frame(ms[1..], rest);
    if i > 0 {
      FrameAt(ms[1..], rest, i - 1);
      var j := PACKET * (i - 1);
      assert data[PACKET + j..PACKET + j + PACKET] == more[j..j + PACKET];
    } else {
      assert data[0..PACKET] == first;
    }
  }

  // Each reading of a frame comes with the clock at it, and with the filter if its type keeps changes only.
  lemma FrameRead(ms: seq<Measured>, rest: seq<Byte>, times: seq<nat>, types: map<nat, bool>)
    requires |rest| < PACKET && |times| >= |ms|
    ensures var ops := Ops(Frame(ms, rest), times, types);
            && |ops| == |ms|
            && forall i :: 0 <= i < |ms| ==>
                 && ops[i].row == Row(ms[i].key, Reading(times[i], ms[i].value))
                 && (ops[i].addChange <==> ms[i].key.kind in types && types[ms[i].key.kind])
  {
    hide Frame, PacketOf, RowOf;
    var data := Frame(ms, rest);
    var ops := Ops(data, times, types);
    forall i | 0 <= i < |ms|
      ensures ops[i].row == Row(ms[i].key, Reading(times[i], ms[i].value))
      ensures ops[i].addChange <==> ms[i].key.kind in types && types[ms[i].key.kind]
    {
      FrameAt(ms, rest, i);
      PacketRoundTrip(ms[i].key, ms[i].value, times[i]);
      assert ops[i] == OpOf(data[PACKET * i..PACKET * i + PACKET], times[i], types);
    }
  }

  class Station {
    const sensors: SensorList
    var log: seq<Row>
    var types: map<nat, bool>

    ghost predicate Valid()
      reads this, sensors
    {
      sensors.Valid()
    }

    ghost function Now(): State
      reads this, sensors, sensors.Repr()
    {
      State(sensors.View(), log)
    }

    constructor ()
      ensures Valid() && Now() == State(map[], [])
    {
      sensors := new SensorList();
      log := [];
      types := map[];
    }

    method UpdateValue(row: Row) returns (added: bool)
      requires Valid()
      modifies this`log, sensors, sensors.Repr()
      ensures Valid() && fresh(sensors.Repr() - old(sensors.Repr()))
      ensures Now() == Update(old(Now()), Op(row, AddsChanges(types, row.key.kind)))
      ensures added <==> |log| == |old(log)| + 1
      ensures !added ==> log == old(log)
    {
      added := sensors.Add(row.key, row.reading, AddsChanges(types, row.key.kind));
      if added {
        log := log + [row];
      }
    }

    // Returns how many readings were added; a remainder shorter than a reading is ignored.
    method UpdateFrame(data: seq<Byte>, times: seq<nat>) returns (count: nat)
      requires Valid() && |times| >= |data| / PACKET
      modifies this`log, sensors, sensors.Repr()
      ensures Valid() && fresh(sensors.Repr() - old(sensors.Repr()))
      ensures Now() == Run(old(Now()), Ops(data, times, types))
      ensures |log| == |old(log)| + count
    {
      hide Ops, OpOf, RowOf, Run, Update;
      var dsize, n := 0, 0;
      count := 0;
      ghost var s := Now();
      FrameBegins(s, data, times, types);
      while dsize + PACKET <= |data|
        invariant dsize == PACKET * n && n <= |data| / PACKET && Valid()
        invariant fresh(sensors.Repr() - old(sensors.Repr()))
        invariant Now() == Run(s, Ops(data, times, types)[..n]) && |log| == |old(log)| + count
      {
        FrameGoesOn(s, data, times, types, n);
        var row := RowOf(data[dsize..dsize + PACKET], times[n]);
        var added := UpdateValue(row);
        if added {
          count := count + 1;
        }
        dsize := dsize + PACKET;
        n := n + 1;
      }
      FrameEnds(data, times, types, n);
    }
  }

  lemma FrameBegins(s: State, data: seq<Byte>, times: seq<nat>, types: map<nat, bool>)
    requires |times| >= |data| / PACKET
    ensures Run(s, Ops(data, times, types)[..0]) == s
  {
    hide Ops;
    assert Ops(data, times, types)[..0] == [];
  }

  // The n-th reading of a frame is the n-th slice of its bytes.
  lemma FrameGoesOn(s: State, data: seq<Byte>, times: seq<nat>, types: map<nat, bool>, n: nat)
    requires |times| >= |data| / PACKET && PACKET * n + PACKET <= |data|
    ensures n < |data| / PACKET
    ensures var row, ops := RowOf(data[PACKET * n..PACKET * n + PACKET], times[n]), Ops(data, times, types);
            Run(s, ops[..n + 1]) == Update(Run(s, ops[..n]), Op(row, AddsChanges(types, row.key.kind)))
  {
    hide RowOf, Update;
    var ops := Ops(data, times, types);
    assert ops[n] == OpOf(data[PACKET * n..PACKET * n + PACKET], times[n], types);
    assert ops[..n + 1][..n] == ops[..n] && ops[..n + 1][n] == ops[n];
  }

  lemma FrameEnds(data: seq<Byte>, times: seq<nat>, types: map<nat, bool>, n: nat)
    requires |times| >= |data| / PACKET && PACKET * n <= |data| < PACKET * n + PACKET
    ensures Ops(data, times, types)[..n] == Ops(data, times, types)
  {
    hide Ops;
    assert n == |data| / PACKET;
  }

  /* The window of a key is the end of its log */

  function Last(s: seq<Reading>): (r: seq<Reading>)
    ensures |r| <= MAX && |r| <= |s| && r == s[|s| - |r|..]
  {
    if |s| <= MAX then s else s[|s| - MAX..]
  }

  function Logged(log: seq<Row>, k: Key): seq<Reading> {
    if log == [] then []
    else
      var row := log[|log| - 1];
      Logged(log[..|log| - 1], k) + if row.key == k then [row.reading] else []
  }

  predicate KeyAgrees(s: State, k: Key) {
    && (k in s.lists <==> Logged(s.log, k) != [])
    && Window(s.lists, k) == Last(Logged(s.log, k))
  }

  ghost predicate Agrees(s: State) {
    forall k :: KeyAgrees(s, k)
  }

  lemma LastPushed(s: seq<Reading>, r: Reading)
    ensures Pushed(Last(s), r) == Last(s + [r])
  {
  }

  lemma LoggedPushed(log: seq<Row>, row: Row, k: Key)
    ensures Logged(log + [row], k) == Logged(log, k) + if row.key == k then [row.reading] else []
  {
    assert (log + [row])[..|log|] == log;
  }

  lemma UpdateKeyAgrees(s: State, op: Op, k: Key)
    requires KeyAgrees(s, k)
    ensures KeyAgrees(Update(s, op), k)
  {
    hide Logged, Last, Pushed, Accepts, Stored;
    var l, r := op.row.key, op.row.reading;
    LastPushed(Logged(s.log, k), r);
    LoggedPushed(s.log, op.row, k);
    StoredAt(s.lists, l, r, k);
    NothingMore(Logged(s.log, k));
  }

  lemma StoredAt(lists: Windows, l: Key, r: Reading, k: Key)
    ensures k in Stored(lists, l, r) <==> k in lists || k == l
    ensures Window(Stored(lists, l, r), k) == if k == l then Pushed(Window(lists, k), r) else Window(lists, k)
  {
    hide Pushed;
  }

  lemma NothingMore(s: seq<Reading>)
    ensures s + [] == s
  {
  }

  lemma UpdateAgrees(s: State, op: Op)
    requires Agrees(s)
    ensures Agrees(Update(s, op))
  {
    hide KeyAgrees, Update;
    forall k
      ensures KeyAgrees(Update(s, op), k)
    {
      assert KeyAgrees(s, k);
      UpdateKeyAgrees(s, op, k);
    }
  }

  // After any readings, each window holds exactly the last rows of its key's log.
  lemma {:induction false} RunAgrees(ops: seq<Op>)
    ensures Agrees(Run(State(map[], []), ops))
  {
    if ops == [] {
      forall k
        ensures KeyAgrees(State(map[], []), k)
      {
      }
    } else {
      RunAgrees(ops[..|ops| - 1]);
      UpdateAgrees(Run(State(map[], []), ops[..|ops| - 1]), ops[|ops| - 1]);
    }
  }

  /* Reading the log back: the query orders by time only, so ties come in any order */

  predicate Descending(s: seq<Reading>) {
    forall i, j :: 0 <= i < j < |s| ==> s[i].time >= s[j].time
  }

  function Limit(s: seq<Reading>): seq<Reading> {
    if |s| <= MAX then s else s[..MAX]
  }

  ghost predicate Sorts(rows: seq<Reading>, sorted: seq<Reading>) {
    Descending(sorted) && multiset(sorted) == multiset(rows)
  }

  // What the database may answer to the query for one key
  ghost predicate Answer(rows: seq<Reading>, answer: seq<Reading>) {
    exists sorted :: Sorts(rows, sorted) && answer == Limit(sorted)
  }

  // Each of the last readings is later than every one before it, or repeats it entirely.
  predicate Later(rows: seq<Reading>, n: nat) {
    forall i, j :: 0 <= i < j < |rows| && |rows| - n <= j ==> rows[i].time < rows[j].time || rows[i] == rows[j]
  }

  lemma SameSize(rows: seq<Reading>, sorted: seq<Reading>)
    requires multiset(sorted) == multiset(rows)
    ensures |sorted| == |rows|
  {
    assert |multiset(sorted)| == |sorted| && |multiset(rows)| == |rows|;
  }

  lemma InBoth(rows: seq<Reading>, sorted: seq<Reading>, r: Reading)
    requires multiset(sorted) == multiset(rows)
    ensures r in rows <==> r in sorted
  {
    assert r in rows <==> r in multiset(rows);
    assert r in sorted <==> r in multiset(sorted);
  }

  lemma TailsMatch(rows: seq<Reading>, sorted: seq<Reading>)
    requires rows != [] && multiset(sorted) == multiset(rows) && |sorted| == |rows|
    requires sorted[0] == rows[|rows| - 1]
    ensures multiset(sorted[1..]) == multiset(rows[..|rows| - 1])
  {
    var n := |rows| - 1;
    Split(rows, n);
    Split(sorted, 1);
    assert rows[n..] == [sorted[0]] == sorted[..1];
    Cancel(multiset(sorted[1..]), multiset(rows[..n]), multiset(sorted[..1]));
  }

  lemma NewestFirst(rows: seq<Reading>, sorted: seq<Reading>)
    requires rows != [] && Sorts(rows, sorted) && |sorted| == |rows|
    requires Later(rows, 1)
    ensures sorted[0] == rows[|rows| - 1]
  {
    var last := rows[|rows| - 1];
    InBoth(rows, sorted, last);
    InBoth(rows, sorted, sorted[0]);
    var i :| 0 <= i < |rows| && rows[i] == sorted[0];
    var j :| 0 <= j < |sorted| && sorted[j] == last;
    assert i == |rows| - 1 || rows[i].time < last.time || rows[i] == last;
  }

  lemma {:induction false} LaterTaken(rows: seq<Reading>, sorted: seq<Reading>, n: nat)
    requires Sorts(rows, sorted) && Later(rows, n) && n <= |rows|
    ensures |sorted| == |rows| && forall k :: 0 <= k < n ==> sorted[k] == rows[|rows| - 1 - k]
    decreases n
  {
    SameSize(rows, sorted);
    if n > 0 {
      NewestFirst(rows, sorted);
      TailsMatch(rows, sorted);
      LaterTaken(rows[..|rows| - 1], sorted[1..], n - 1);
      forall k | 0 < k < n
        ensures sorted[k] == rows[|rows| - 1 - k]
      {
        assert sorted[k] == sorted[1..][k - 1];
      }
    }
  }

  // Two entries of the log in the given places of a sorted order
  lemma Exchanged(rows: seq<Reading>, sorted: seq<Reading>, p: nat, q: nat)
    requires Sorts(rows, sorted) && p < |sorted| && q < |sorted| && sorted[p].time == sorted[q].time
    ensures Sorts(rows, sorted[p := sorted[q]][q := sorted[p]])
  {
    var t := sorted[p := sorted[q]][q := sorted[p]];
    assert multiset(t) == multiset(sorted);
    assert forall i :: 0 <= i < |t| ==> t[i].time == sorted[i].time;
  }

  lemma Split(s: seq<Reading>, n: nat)
    requires n <= |s|
    ensures s == s[..n] + s[n..] && multiset(s) == multiset(s[..n]) + multiset(s[n..])
  {
    assert s == s[..n] + s[n..];
  }

  lemma Inserted(s: seq<Reading>, r: Reading, i: nat)
    requires Descending(s) && i <= |s|
    requires forall j :: 0 <= j < i ==> s[j].time > r.time
    requires i < |s| ==> s[i].time <= r.time
    ensures Descending(s[..i] + [r] + s[i..])
    ensures multiset(s[..i] + [r] + s[i..]) == multiset(s) + multiset{r}
  {
    Split(s, i);
  }

  // Every log has an order by descending time.
  lemma {:induction false} Sortable(rows: seq<Reading>) returns (sorted: seq<Reading>)
    ensures Sorts(rows, sorted)
  {
    hide Descending, Sorts;
    if rows == [] {
      sorted := [];
      NothingDescends();
    } else {
      var n := |rows| - 1;
      var s := Sortable(rows[..n]);
      var i := 0;
      while i < |s| && s[i].time > rows[n].time
        invariant i <= |s| && forall j :: 0 <= j < i ==> s[j].time > rows[n].time
      {
        i := i + 1;
      }
      sorted := s[..i] + [rows[n]] + s[i..];
      InsertedSorts(rows, s, i);
    }
  }

  lemma InsertedSorts(rows: seq<Reading>, s: seq<Reading>, i: nat)
    requires rows != [] && Sorts(rows[..|rows| - 1], s) && i <= |s|
    requires forall j :: 0 <= j < i ==> s[j].time > rows[|rows| - 1].time
    requires i < |s| ==> s[i].time <= rows[|rows| - 1].time
    ensures Sorts(rows, s[..i] + [rows[|rows| - 1]] + s[i..])
  {
    hide Descending;
    var n := |rows| - 1;
    Inserted(s, rows[n], i);
    Split(rows, n);
    assert rows[n..] == [rows[n]];
  }

  lemma NothingDescends()
    ensures Sorts([], [])
  {
  }

  ghost predicate Survives(rows: seq<Reading>) {
    forall answer :: Answer(rows, answer) ==> Reversed(answer) == Last(rows)
  }

  // The newest readings of a sorted order, oldest first
  lemma NewestBack(rows: seq<Reading>, sorted: seq<Reading>, n: nat)
    requires n == (if |rows| <= MAX then |rows| else MAX) && |sorted| == |rows|
    requires forall k :: 0 <= k < n ==> sorted[k] == rows[|rows| - 1 - k]
    ensures Reversed(Limit(sorted)) == Last(rows)
  {
    hide Reversed;
    var l, w := Limit(sorted), Last(rows);
    forall i | 0 <= i < n
      ensures Reversed(l)[i] == w[i]
    {
      assert l[n - 1 - i] == sorted[n - 1 - i];
    }
  }

  lemma LaterSurvives(rows: seq<Reading>)
    requires Later(rows, MAX)
    ensures Survives(rows)
  {
    hide Reversed, Last, Limit, Sorts, Later;
    forall answer | Answer(rows, answer)
      ensures Reversed(answer) == Last(rows)
    {
      var sorted :| Sorts(rows, sorted) && answer == Limit(sorted);
      var n := if |rows| <= MAX then |rows| else MAX;
      LaterFewer(rows, n);
      LaterTaken(rows, sorted, n);
      NewestBack(rows, sorted, n);
    }
  }

  lemma LaterFewer(rows: seq<Reading>, n: nat)
    requires Later(rows, MAX) && (n == MAX || n == |rows| <= MAX)
    ensures Later(rows, n)
  {
  }

  lemma MultisetPushed(s: seq<Reading>, r: Reading)
    ensures multiset(s + [r]) == multiset(s) + multiset{r}
  {
  }

  lemma {:induction false} SameReversed(t: seq<Reading>)
    ensures multiset(Reversed(t)) == multiset(t)
  {
    if t != [] {
      SameReversed(t[1..]);
      Split(t, 1);
      assert t[..1] == [t[0]];
      MultisetPushed(Reversed(t[1..]), t[0]);
    }
  }

  // What the query leaves out is what stands before the window.
  lemma LeftOut(rows: seq<Reading>, sorted: seq<Reading>)
    requires multiset(sorted) == multiset(rows) && |sorted| == |rows| > MAX
    requires Reversed(sorted[..MAX]) == rows[|rows| - MAX..]
    ensures multiset(sorted[MAX..]) == multiset(rows[..|rows| - MAX])
  {
    SameReversed(sorted[..MAX]);
    Split(sorted, MAX);
    Split(rows, |rows| - MAX);
    Cancel(multiset(sorted[MAX..]), multiset(rows[..|rows| - MAX]), multiset(sorted[..MAX]));
  }

  lemma Cancel(a: multiset<Reading>, b: multiset<Reading>, m: multiset<Reading>)
    requires a + m == b + m
    ensures a == b
  {
    assert a == (a + m) - m && b == (b + m) - m;
  }

  // Where a reading of the log stands in an order that brings the window back
  lemma Placed(rows: seq<Reading>, sorted: seq<Reading>, i: nat) returns (p: nat)
    requires Sorts(rows, sorted) && Reversed(Limit(sorted)) == Last(rows) && i < |rows|
    ensures p < |sorted| == |rows| && sorted[p] == rows[i]
    ensures i < |rows| - MAX ==> MAX <= p
    ensures i >= |rows| - MAX ==> p == |rows| - 1 - i
  {
    hide Sorts;
    SortsSame(rows, sorted);
    if i >= |rows| - MAX {
      p := |rows| - 1 - i;
      assert Limit(sorted)[p] == Last(rows)[|Last(rows)| - 1 - p];
    } else {
      LeftOut(rows, sorted);
      var before, after := rows[..|rows| - MAX], sorted[MAX..];
      InBoth(before, after, before[i]);
      var q :| 0 <= q < |after| && after[q] == before[i];
      p := MAX + q;
    }
  }

  lemma SortsSame(rows: seq<Reading>, sorted: seq<Reading>)
    requires Sorts(rows, sorted)
    ensures multiset(sorted) == multiset(rows) && |sorted| == |rows|
  {
    SameSize(rows, sorted);
  }

  lemma SurvivesLater(rows: seq<Reading>)
    requires Survives(rows)
    ensures Later(rows, MAX)
  {
    hide Reversed, Last, Limit;
    var sorted := Sortable(rows);
    assert Answer(rows, Limit(sorted));
    forall i, j | 0 <= i < j < |rows| && |rows| - MAX <= j
      ensures rows[i].time < rows[j].time || rows[i] == rows[j]
    {
      var p := Placed(rows, sorted, i);
      var q := Placed(rows, sorted, j);
      assert q < p;
      assert sorted[q].time >= sorted[p].time;
      if rows[i].time == rows[j].time {
        Exchanged(rows, sorted, q, p);
        var t := sorted[q := sorted[p]][p := sorted[q]];
        assert Answer(rows, Limit(t));
        var o := Placed(rows, t, j);
      }
    }
  }

  // Every order the database may give brings a window back after a restart exactly when each reading in
  // it is later than all before it, or repeats them entirely.
  lemma RestartExact(rows: seq<Reading>)
    ensures Survives(rows) <==> Later(rows, MAX)
  {
    hide Survives, Later;
    if Survives(rows) {
      SurvivesLater(rows);
    }
    if Later(rows, MAX) {
      LaterSurvives(rows);
    }
  }

  // Readings of one second may come back exchanged.
  lemma TiesExchanged()
    ensures exists rows, answer :: Answer(rows, answer) && Reversed(answer) != Last(rows)
  {
    var r, t := Reading(7, 1), Reading(7, 2);
    assert Sorts([r, t], [r, t]);
    assert Answer([r, t], [r, t]);
    assert Reversed([r, t])[0] == t;
  }

  predicate Increasing(rows: seq<Reading>) {
    forall i, j :: 0 <= i < j < |rows| ==> rows[i].time < rows[j].time
  }

  // After any run in which each key's times increase, the replay of what the database answers for the
  // logged keys rebuilds the windows.
  lemma RestartAgrees(ops: seq<Op>, keys: seq<Key>, answers: map<Key, seq<Reading>>)
    requires var log := Run(State(map[], []), ops).log;
             && (forall k :: k in keys <==> Logged(log, k) != [])
             && (forall k :: k in keys ==> k in answers && Answer(Logged(log, k), answers[k]))
             && forall k :: k in keys ==> Increasing(Logged(log, k))
    ensures Reloaded(keys, answers) == Run(State(map[], []), ops).lists
  {
    hide Run, Logged, Answer, Reversed, Last;
    var s := Run(State(map[], []), ops);
    RunAgrees(ops);
    forall k
      ensures k in keys <==> k in s.lists
      ensures k in keys ==> Reversed(answers[k]) == s.lists[k]
    {
      assert KeyAgrees(s, k);
      if k in keys {
        LaterSurvives(Logged(s.log, k));
      }
    }
  }

  /* The change filter */

  // The readings whose value differs from the reading just before
  function Changed(readings: seq<Reading>): seq<Reading> {
    if readings == [] then []
    else
      var n := |readings| - 1;
      Changed(readings[..n]) + if n == 0 || readings[n - 1].value != readings[n].value then [readings[n]] else []
  }

  // The readings offered to a key in a run
  function Offered(ops: seq<Op>, k: Key): seq<Reading> {
    if ops == [] then []
    else
      var op := ops[|ops| - 1];
      Offered(ops[..|ops| - 1], k) + if op.row.key == k then [op.row.reading] else []
  }

  lemma {:induction false} ChangedKeepsLast(readings: seq<Reading>)
    requires readings != []
    ensures Changed(readings) != []
    ensures Changed(readings)[|Changed(readings)| - 1].value == readings[|readings| - 1].value
  {
    if |readings| > 1 {
      ChangedKeepsLast(readings[..|readings| - 1]);
    }
  }

  predicate NoRepeats(s: seq<Reading>) {
    forall i, j :: 0 <= i < |s| && j == i + 1 < |s| ==> s[i].value != s[j].value
  }

  lemma NoRepeatsPushed(s: seq<Reading>, r: Reading)
    requires NoRepeats(s) && (s == [] || s[|s| - 1].value != r.value)
    ensures NoRepeats(s + [r])
  {
  }

  lemma NoRepeatsEnd(s: seq<Reading>)
    requires NoRepeats(s)
    ensures NoRepeats(Last(s))
  {
  }

  lemma {:induction false} ChangedNoRepeats(readings: seq<Reading>)
    ensures NoRepeats(Changed(readings)) && NoRepeats(Last(Changed(readings)))
  {
    hide NoRepeats, Last;
    if readings == [] {
      NothingRepeats();
    } else {
      var before, r := readings[..|readings| - 1], readings[|readings| - 1];
      ChangedNoRepeats(before);
      if before != [] { ChangedKeepsLast(before); }
      if before == [] || before[|before| - 1].value != r.value {
        NoRepeatsPushed(Changed(before), r);
      } else {
        assert Changed(before) + [] == Changed(before);
      }
    }
    NoRepeatsEnd(Changed(readings));
  }

  lemma NothingRepeats()
    ensures NoRepeats([])
  {
  }

  lemma ChangesLast(s: seq<Reading>, value: int)
    ensures Changes(Last(s), value) <==> s == [] || s[|s| - 1].value != value
  {
  }

  lemma ChangedPushed(o: seq<Reading>, r: Reading)
    ensures Changed(o + [r]) == if Changes(Last(Changed(o)), r.value) then Changed(o) + [r] else Changed(o)
  {
    hide Changes, Last;
    assert (o + [r])[..|o|] == o;
    ChangesLast(Changed(o), r.value);
    if o != [] {
      ChangedKeepsLast(o);
    }
  }

  lemma FilterStep(s: State, op: Op, k: Key, o: seq<Reading>)
    requires Logged(s.log, k) == Changed(o) && Window(s.lists, k) == Last(Changed(o))
    requires op.row.key == k ==> op.addChange
    ensures Logged(Update(s, op).log, k) == Changed(if op.row.key == k then o + [op.row.reading] else o)
  {
    hide Changed, Logged, Last, Changes;
    LoggedPushed(s.log, op.row, k);
    ChangedPushed(o, op.row.reading);
    assert Changed(o) + [] == Changed(o);
  }

  lemma NothingOffered(k: Key)
    ensures Logged([], k) == [] && Changed([]) == [] && Offered([], k) == []
  {
  }

  lemma OfferedNext(ops: seq<Op>, k: Key)
    requires ops != []
    ensures var before, op := ops[..|ops| - 1], ops[|ops| - 1];
            && Run(State(map[], []), ops) == Update(Run(State(map[], []), before), op)
            && Offered(ops, k) == if op.row.key == k then Offered(before, k) + [op.row.reading] else Offered(before, k)
  {
    hide Update;
    assert Offered(ops[..|ops| - 1], k) + [] == Offered(ops[..|ops| - 1], k);
  }

  lemma WindowIs(ops: seq<Op>, k: Key)
    ensures var s := Run(State(map[], []), ops); Window(s.lists, k) == Last(Logged(s.log, k))
  {
    hide Run, Last, Logged;
    RunAgrees(ops);
    assert KeyAgrees(Run(State(map[], []), ops), k);
  }

  // With the filter on for a key, exactly the changes are added, and the window never holds the same
  // value twice in a row.
  lemma {:induction false} FilterExact(ops: seq<Op>, k: Key)
    requires forall i :: 0 <= i < |ops| && ops[i].row.key == k ==> ops[i].addChange
    ensures var s := Run(State(map[], []), ops);
            && Logged(s.log, k) == Changed(Offered(ops, k))
            && Window(s.lists, k) == Last(Changed(Offered(ops, k)))
            && NoRepeats(Window(s.lists, k))
  {
    hide Last, Logged, Changed, Update, NoRepeats, Window, Offered;
    WindowIs(ops, k);
    ChangedNoRepeats(Offered(ops, k));
    if ops == [] {
      NothingOffered(k);
    } else {
      var before, op := ops[..|ops| - 1], ops[|ops| - 1];
      FilterExact(before, k);
      OfferedNext(ops, k);
      FilterStep(Run(State(map[], []), before), op, k, Offered(before, k));
    }
  }

  // Without the filter every reading of a key is logged, and the window holds the last of them.
  lemma {:induction false} PlainExact(ops: seq<Op>, k: Key)
    requires forall i :: 0 <= i < |ops| && ops[i].row.key == k ==> !ops[i].addChange
    ensures var s := Run(State(map[], []), ops);
            Logged(s.log, k) == Offered(ops, k) && Window(s.lists, k) == Last(Offered(ops, k))
  {
    hide Last, Logged, Window, Offered, Stored, Changes;
    WindowIs(ops, k);
    if ops == [] {
      NothingOffered(k);
    } else {
      var before, op := ops[..|ops| - 1], ops[|ops| - 1];
      PlainExact(before, k);
      OfferedNext(ops, k);
      LoggedPushed(Run(State(map[], []), before).log, op.row, k);
      NothingMore(Offered(before, k));
    }
  }
}
