/** Alarm rules on sensor readings: a rule fires when its comparison starts to hold. */
module Alarms {
  datatype Comparison = Less | LessEqual | Equal | GreaterEqual | Greater | Different

  datatype Rule = Rule(enabled: bool, kind: Comparison, limit: real, status: bool)

  datatype Key = Key(device: int, kind: nat, index: nat)

  // A rule as a user sends it
  datatype Template = Template(kind: nat, index: nat, enabled: bool, comparison: Comparison, limit: real)

  type Rules = map<Key, seq<Rule>>

  // The two "greater" arms as the source has them: each does what the other's name says.
  predicate Compare(kind: Comparison, limit: real, value: real) {
    match kind
    case Less => value < limit
    case LessEqual => value <= limit
    case Equal => value == limit
    case GreaterEqual => value > limit
    case Greater => value >= limit
    case Different => value != limit
  }

  // What the comparisons are called
  predicate Named(kind: Comparison, limit: real, value: real) {
    match kind
    case Less => value < limit
    case LessEqual => value <= limit
    case Equal => value == limit
    case GreaterEqual => value >= limit
    case Greater => value > limit
    case Different => value != limit
  }

  // A comparison does what it is called exactly unless it is one of the "greater" ones and the limit is met.
  lemma NamesExact(kind: Comparison, limit: real, value: real)
    ensures (Compare(kind, limit, value) <==> Named(kind, limit, value)) <==>
            (kind == Greater || kind == GreaterEqual ==> value != limit)
  {
  }

  predicate Holds(r: Rule, value: real) {
    Compare(r.kind, r.limit, value)
  }

  predicate Fires(r: Rule, value: real) {
    r.enabled && Holds(r, value) && !r.status
  }

  function Checked(r: Rule, value: real): Rule {
    if r.enabled then r.(status := Holds(r, value)) else r
  }

  function AllChecked(rules: seq<Rule>, value: real): seq<Rule> {
    seq(|rules|, i requires 0 <= i < |rules| => Checked(rules[i], value))
  }

  // The rules that fire, in order, as they are afterwards
  function Fired(rules: seq<Rule>, value: real): seq<Rule> {
    if rules == [] then []
    else
      var r := rules[|rules| - 1];
      Fired(rules[..|rules| - 1], value) + if Fires(r, value) then [Checked(r, value)] else []
  }

  function Fresh(t: Template): Rule {
    Rule(t.enabled, t.comparison, t.limit, false)
  }

  function RulesOf(rules: Rules, k: Key): seq<Rule> {
    if k in rules then rules[k] else []
  }

  function Added(rules: Rules, k: Key, r: Rule): Rules {
    rules[k := RulesOf(rules, k) + [r]]
  }

  function Without(rules: Rules, device: int): Rules {
    map k | k in rules && k.device != device :: rules[k]
  }

  function AddedAll(rules: Rules, device: int, ts: seq<Template>): Rules {
    if ts == [] then rules
    else
      var t := ts[|ts| - 1];
      Added(AddedAll(rules, device, ts[..|ts| - 1]), Key(device, t.kind, t.index), Fresh(t))
  }

  // The templates for one kind and index as rules, in order, none of them on yet
  function Given(ts: seq<Template>, kind: nat, index: nat): seq<Rule> {
    if ts == [] then []
    else
      var t := ts[0];
      (if t.kind == kind && t.index == index then [Rule(t.enabled, t.comparison, t.limit, false)] else [])
      + Given(ts[1..], kind, index)
  }

  // The rules under k after a device's were replaced
  ghost predicate Replaced(was: Rules, now: Rules, device: int, ts: seq<Template>, k: Key) {
    if k.device == device then
      && (k in now <==> exists t :: t in ts && t.kind == k.kind && t.index == k.index)
      && (k in now ==> now[k] == Given(ts, k.kind, k.index))
    else (k in now <==> k in was) && (k in now ==> now[k] == was[k])
  }

  lemma {:induction false} GivenNext(ts: seq<Template>, t: Template, kind: nat, index: nat)
    ensures Given(ts + [t], kind, index) ==
            Given(ts, kind, index) +
            if t.kind == kind && t.index == index then [Rule(t.enabled, t.comparison, t.limit, false)] else []
  {
    if ts == [] {
      assert ts + [t] == [t] && [t][1..] == [];
    } else {
      GivenNext(ts[1..], t, kind, index);
      assert (ts + [t])[1..] == ts[1..] + [t];
    }
  }

  lemma {:induction false} AddedGiven(rules: Rules, device: int, ts: seq<Template>, k: Key)
    requires k.device == device && k !in rules
    ensures var now := AddedAll(rules, device, ts);
            && RulesOf(now, k) == Given(ts, k.kind, k.index)
            && (k in now <==> exists t :: t in ts && t.kind == k.kind && t.index == k.index)
  {
    if ts != [] {
      var before, t := ts[..|ts| - 1], ts[|ts| - 1];
      assert ts == before + [t];
      AddedGiven(rules, device, before, k);
      GivenNext(before, t, k.kind, k.index);
      assert Given(before, k.kind, k.index) + [] == Given(before, k.kind, k.index);
    }
  }

  lemma {:induction false} OthersAdded(rules: Rules, device: int, ts: seq<Template>, k: Key)
    requires k.device != device
    ensures RulesOf(AddedAll(rules, device, ts), k) == RulesOf(rules, k)
    ensures k in AddedAll(rules, device, ts) <==> k in rules
  {
    if ts != [] {
      OthersAdded(rules, device, ts[..|ts| - 1], k);
    }
  }

  // After a replacement each key of the device has exactly the templates given for it, in order, and no other key
  // of the device has any; other devices keep theirs.
  lemma SetExact(rules: Rules, device: int, ts: seq<Template>, k: Key)
    ensures Replaced(rules, AddedAll(Without(rules, device), device, ts), device, ts, k)
  {
    if k.device == device {
      AddedGiven(Without(rules, device), device, ts, k);
    } else {
      OthersAdded(Without(rules, device), device, ts, k);
    }
  }

  function ComesOn(r: Rule, value: real): seq<Rule> {
    if r.enabled && !r.status && Compare(r.kind, r.limit, value) then [r.(status := true)] else []
  }

  // The rules that come on at a reading, in order
  function Rising(rules: seq<Rule>, value: real): seq<Rule> {
    if rules == [] then [] else ComesOn(rules[0], value) + Rising(rules[1..], value)
  }

  lemma {:induction false} RisingNext(rules: seq<Rule>, r: Rule, value: real)
    ensures Rising(rules + [r], value) == Rising(rules, value) + ComesOn(r, value)
  {
    hide ComesOn;
    if rules == [] {
      assert rules + [r] == [r] && [r][1..] == [];
    } else {
      RisingNext(rules[1..], r, value);
      assert (rules + [r])[1..] == rules[1..] + [r];
    }
  }

  // What a reading fires is what comes on at it, in order.
  lemma {:induction false} FiredMeans(rules: seq<Rule>, value: real)
    ensures Fired(rules, value) == Rising(rules, value)
  {
    hide Compare;
    if rules != [] {
      var before, r := rules[..|rules| - 1], rules[|rules| - 1];
      assert rules == before + [r];
      FiredMeans(before, value);
      RisingNext(before, r, value);
    }
  }

  lemma FiredNone(value: real)
    ensures Fired([], value) == []
  {
  }

  lemma FiredNext(rules: seq<Rule>, i: nat, value: real)
    requires i < |rules|
    ensures var before, r := Fired(rules[..i], value), rules[i];
            Fired(rules[..i + 1], value) == if Fires(r, value) then before + [Checked(r, value)] else before
  {
    hide Fires, Checked;
    assert rules[..i + 1][..i] == rules[..i];
    assert Fired(rules[..i], value) + [] == Fired(rules[..i], value);
  }

  class Notify {
    var sensors: Rules

    constructor ()
      ensures sensors == map[]
    {
      sensors := map[];
    }

    method Add(k: Key, enabled: bool, kind: Comparison, limit: real, status: bool)
      modifies this
      ensures sensors == Added(old(sensors), k, Rule(enabled, kind, limit, status))
      ensures k in sensors && sensors - {k} == old(sensors) - {k}
      ensures sensors[k] == (if k in old(sensors) then old(sensors)[k] else []) + [Rule(enabled, kind, limit, status)]
    {
      if k !in sensors {
        assert [] + [Rule(enabled, kind, limit, status)] == [Rule(enabled, kind, limit, status)];
        sensors := sensors[k := [Rule(enabled, kind, limit, status)]];
        return;
      }
      sensors := sensors[k := sensors[k] + [Rule(enabled, kind, limit, status)]];
    }

    // Replaces all rules of a device.
    method Set(device: int, values: seq<Template>)
      modifies this
      ensures sensors == AddedAll(Without(old(sensors), device), device, values)
      ensures forall k :: Replaced(old(sensors), sensors, device, values, k)
    {
      hide Replaced;
      forall k { SetExact(sensors, device, values, k); }
      sensors := map k | k in sensors && k.device != device :: sensors[k];
      var i := 0;
      while i < |values|
        invariant 0 <= i <= |values|
        invariant sensors == AddedAll(Without(old(sensors), device), device, values[..i])
      {
        var s := values[i];
        var k := Key(device, s.kind, s.index);
        assert values[..i + 1][..i] == values[..i];
        if k !in sensors {
          assert [] + [Fresh(s)] == [Fresh(s)];
          sensors := sensors[k := [Fresh(s)]];
        } else {
          sensors := sensors[k := sensors[k] + [Fresh(s)]];
        }
        i := i + 1;
      }
      assert values[..i] == values;
    }

    // The rules under a key that fire at a reading
    method Can(k: Key, value: real) returns (fired: seq<Rule>)
      modifies this
      ensures sensors == Read(old(sensors), k, value)
      ensures fired == Fired(RulesOf(old(sensors), k), value) == Rising(RulesOf(old(sensors), k), value)
    {
      hide Rising, Fired;
      FiredMeans(RulesOf(sensors, k), value);
      FiredNone(value);
      fired := [];
      if k !in sensors {
        return;
      }
      var rules, i := sensors[k], 0;
      ghost var was := rules;
      assert was[..0] == [];
      while i < |rules|
        invariant 0 <= i <= |rules| == |was|
        invariant forall j :: 0 <= j < |rules| ==> rules[j] == if j < i then Checked(was[j], value) else was[j]
        invariant fired == Fired(was[..i], value) && sensors == old(sensors)
      {
        FiredNext(was, i, value);
        if rules[i].enabled {
          if Compare(rules[i].kind, rules[i].limit, value) {
            if !rules[i].status {
              rules := rules[i := rules[i].(status := true)];
              fired := fired + [rules[i]];
            }
          } else {
            rules := rules[i := rules[i].(status := false)];
          }
        }
        i := i + 1;
      }
      assert was[..i] == was;
      assert rules == AllChecked(was, value);
      sensors := sensors[k := rules];
    }
  }

  function Read(rules: Rules, k: Key, value: real): Rules {
    if k in rules then rules[k := AllChecked(rules[k], value)] else rules
  }

  /* Runs */

  datatype Event =
    | Reading(key: Key, value: real)
    | Addition(key: Key, rule: Rule)
    | Replacement(device: int, templates: seq<Template>)

  function Step(rules: Rules, e: Event): Rules {
    match e
    case Reading(k, value) => Read(rules, k, value)
    case Addition(k, r) => Added(rules, k, r)
    case Replacement(device, ts) => AddedAll(Without(rules, device), device, ts)
  }

  function Run(rules: Rules, events: seq<Event>): Rules {
    if events == [] then rules else Step(Run(rules, events[..|events| - 1]), events[|events| - 1])
  }

  function Readings(events: seq<Event>, k: Key): seq<real> {
    if events == [] then []
    else
      var e := events[|events| - 1];
      Readings(events[..|events| - 1], k) + if e.Reading? && e.key == k then [e.value] else []
  }

  // A rule after readings of its key
  function Track(r: Rule, values: seq<real>): Rule {
    if values == [] then r else Checked(Track(r, values[..|values| - 1]), values[|values| - 1])
  }

  predicate Installed(rules: Rules, k: Key, p: nat, r: Rule) {
    k in rules && p < |rules[k]| && rules[k][p] == r
  }

  lemma StepKeeps(rules: Rules, e: Event, k: Key, p: nat, r: Rule)
    requires Installed(rules, k, p, r)
    requires e.Replacement? ==> e.device != k.device
    ensures Installed(Step(rules, e), k, p, if e.Reading? && e.key == k then Checked(r, e.value) else r)
  {
    if e.Replacement? {
      OthersAdded(Without(rules, e.device), e.device, e.templates, k);
    }
  }

  // Until its device's rules are replaced, a rule changes by the readings of its own key only, and a
  // disabled one not at all.
  lemma {:induction false} OwnReadingsOnly(rules: Rules, events: seq<Event>, k: Key, p: nat, r: Rule)
    requires Installed(rules, k, p, r)
    requires forall e :: e in events && e.Replacement? ==> e.device != k.device
    ensures Installed(Run(rules, events), k, p, Track(r, Readings(events, k)))
    ensures !r.enabled ==> Track(r, Readings(events, k)) == r
  {
    if events != [] {
      var before, e := events[..|events| - 1], events[|events| - 1];
      OwnReadingsOnly(rules, before, k, p, r);
      var values := Readings(before, k);
      StepKeeps(Run(rules, before), e, k, p, Track(r, values));
      if e.Reading? && e.key == k {
        assert (values + [e.value])[..|values|] == values;
      } else {
        assert values + [] == values;
      }
    }
  }

  /* Edges */

  lemma {:induction false} Tracked(r: Rule, values: seq<real>)
    requires r.enabled
    ensures Track(r, values) == if values == [] then r else r.(status := Holds(r, values[|values| - 1]))
  {
    if values != [] {
      Tracked(r, values[..|values| - 1]);
    }
  }

  predicate FiresAt(r: Rule, values: seq<real>, i: nat)
    requires i < |values|
  {
    Fires(Track(r, values[..i]), values[i])
  }

  // A newly installed enabled rule fires at a reading exactly when its comparison holds there and did not
  // at the reading before.
  lemma RisingEdge(r: Rule, values: seq<real>, i: nat)
    requires r.enabled && !r.status && i < |values|
    ensures FiresAt(r, values, i) <==> Holds(r, values[i]) && (i > 0 ==> !Holds(r, values[i - 1]))
  {
    Tracked(r, values[..i]);
  }

  // In any run from its installation on, an enabled rule fires at the next reading of its key exactly when
  // the comparison holds there, and there was none before or it failed at the last one.
  lemma FiresOnEdge(rules: Rules, events: seq<Event>, k: Key, p: nat, r: Rule, value: real)
    requires Installed(rules, k, p, r) && r.enabled && !r.status
    requires forall e :: e in events && e.Replacement? ==> e.device != k.device
    ensures var now, past := RulesOf(Run(rules, events), k), Readings(events, k);
            && p < |now|
            && (Fires(now[p], value) <==> Holds(r, value) && (past != [] ==> !Holds(r, past[|past| - 1])))
  {
    hide Run, Readings;
    OwnReadingsOnly(rules, events, k, p, r);
    var values := Readings(events, k) + [value];
    assert values[..|values| - 1] == Readings(events, k);
    RisingEdge(r, values, |values| - 1);
    TrackSame(r, Readings(events, k), value);
  }

  lemma {:induction false} TrackSame(r: Rule, values: seq<real>, value: real)
    ensures Holds(Track(r, values), value) == Holds(r, value)
  {
    if values != [] {
      TrackSame(r, values[..|values| - 1], value);
    }
  }

  // Newly installed rules at a reading that meets their limit: the "greater" one fires, the "greater or equal"
  // one does not.
  lemma LimitMet(k: Key, limit: real)
    ensures var greater, orEqual := Rule(true, Greater, limit, false), Rule(true, GreaterEqual, limit, false);
            var now := Run(map[], [Addition(k, greater), Addition(k, orEqual)]);
            && !Named(Greater, limit, limit) && Named(GreaterEqual, limit, limit)
            && k in now && Fired(now[k], limit) == [greater.(status := true)]
  {
    hide Fires, Checked;
    var greater, orEqual := Rule(true, Greater, limit, false), Rule(true, GreaterEqual, limit, false);
    var first, events := [Addition(k, greater)], [Addition(k, greater), Addition(k, orEqual)];
    var none: seq<Rule> := [];
    assert events[..1] == first && first[..0] == [];
    assert none + [greater] == [greater] && [greater] + [orEqual] == [greater, orEqual];
    assert Run(map[], first) == map[k := [greater]];
    assert Run(map[], events) == map[k := [greater, orEqual]];
    FiresAtLimit(limit);
    OneFires(greater, orEqual, limit);
  }

  lemma OneFires(r: Rule, t: Rule, value: real)
    requires Fires(r, value) && !Fires(t, value)
    ensures Fired([r, t], value) == [Checked(r, value)]
  {
    hide Fires, Checked;
    var none: seq<Rule> := [];
    assert [r, t][..1] == [r] && [r][..0] == none && [r, t][1] == t;
    assert Fired([r], value) == Fired(none, value) + [Checked(r, value)];
    assert Fired([r, t], value) == Fired([r], value) + [];
    assert none + [Checked(r, value)] == [Checked(r, value)] && [Checked(r, value)] + none == [Checked(r, value)];
  }

  lemma FiresAtLimit(limit: real)
    ensures var greater := Rule(true, Greater, limit, false);
            Fires(greater, limit) && Checked(greater, limit) == greater.(status := true)
    ensures !Fires(Rule(true, GreaterEqual, limit, false), limit)
  {
  }

  lemma {:induction false} RisingHas(rules: seq<Rule>, value: real, p: nat)
    requires p < |rules| && rules[p].enabled && !rules[p].status && Compare(rules[p].kind, rules[p].limit, value)
    ensures rules[p].(status := true) in Rising(rules, value)
  {
    hide Compare;
    if p > 0 {
      RisingHas(rules[1..], value, p - 1);
    }
  }

  // So an enabled rule that was given for a key fires at the key's first reading that satisfies it, whatever else
  // happens before but another replacement.
  lemma SetThenFires(rules: Rules, device: int, ts: seq<Template>, events: seq<Event>, k: Key, p: nat, value: real)
    requires k.device == device && p < |Given(ts, k.kind, k.index)|
    requires forall e :: e in events && e.Replacement? ==> e.device != device
    requires var r := Given(ts, k.kind, k.index)[p];
             && r.enabled && Compare(r.kind, r.limit, value)
             && forall v :: v in Readings(events, k) ==> !Compare(r.kind, r.limit, v)
    ensures var now := Run(Step(rules, Replacement(device, ts)), events);
            && k in now
            && Given(ts, k.kind, k.index)[p].(status := true) in Fired(now[k], value)
  {
    hide Run, Readings, Compare, Given, AddedAll, Fires, Checked, Fired;
    var r, start, past := Given(ts, k.kind, k.index)[p], Step(rules, Replacement(device, ts)), Readings(events, k);
    SetExact(rules, device, ts, k);
    GivenOff(ts, k.kind, k.index, p);
    OwnReadingsOnly(start, events, k, p, r);
    Tracked(r, past);
    var now := Run(start, events)[k];
    assert past != [] ==> past[|past| - 1] in past;
    RisingHas(now, value, p);
    FiredMeans(now, value);
  }

  lemma {:induction false} GivenOff(ts: seq<Template>, kind: nat, index: nat, p: nat)
    requires p < |Given(ts, kind, index)|
    ensures !Given(ts, kind, index)[p].status
    ensures exists t :: t in ts && t.kind == kind && t.index == index
  {
    if ts[0].kind == kind && ts[0].index == index {
      if p > 0 { GivenOff(ts[1..], kind, index, p - 1); }
    } else {
      GivenOff(ts[1..], kind, index, p);
    }
  }

  // The readings i, .., j - 1 satisfy the rule, and neither neighbour does.
  predicate MaximalRun(r: Rule, values: seq<real>, i: nat, j: nat) {
    && i < j <= |values|
    && (forall k :: i <= k < j ==> Holds(r, values[k]))
    && (i > 0 ==> !Holds(r, values[i - 1]))
    && (j < |values| ==> !Holds(r, values[j]))
  }

  lemma RunEnd(r: Rule, values: seq<real>, i: nat) returns (j: nat)
    requires i < |values| && Holds(r, values[i]) && (i > 0 ==> !Holds(r, values[i - 1]))
    ensures MaximalRun(r, values, i, j)
  {
    j := i + 1;
    while j < |values| && Holds(r, values[j])
      invariant i < j <= |values| && forall k :: i <= k < j ==> Holds(r, values[k])
    {
      j := j + 1;
    }
  }

  lemma OneEnd(r: Rule, values: seq<real>, i: nat, j: nat, k: nat)
    requires MaximalRun(r, values, i, j) && MaximalRun(r, values, i, k)
    ensures j == k
  {
    var x, y := if j < |values| then j else i, if k < |values| then k else i;
    assert x < k ==> Holds(r, values[x]);
    assert y < j ==> Holds(r, values[y]);
  }

  ghost function Firings(r: Rule, values: seq<real>): set<nat> {
    set i: nat | i < |values| && FiresAt(r, values, i)
  }

  ghost function Runs(r: Rule, values: seq<real>): set<(nat, nat)> {
    set i: nat, j: nat | i < |values| && j <= |values| && MaximalRun(r, values, i, j) :: (i, j)
  }

  // As many firings as maximal stretches of readings that satisfy the rule
  lemma FiringsCountRuns(r: Rule, values: seq<real>)
    requires r.enabled && !r.status
    ensures |Firings(r, values)| == |Runs(r, values)|
  {
    var fs, rs := Firings(r, values), Runs(r, values);
    forall i: nat | i in fs
      ensures exists j: nat :: (i, j) in rs
    {
      RisingEdge(r, values, i);
      var j := RunEnd(r, values, i);
      assert (i, j) in rs;
    }
    forall i: nat, j: nat | (i, j) in rs
      ensures i in fs
    {
      RisingEdge(r, values, i);
    }
    forall i: nat, j: nat, k: nat | (i, j) in rs && (i, k) in rs
      ensures j == k
    {
      OneEnd(r, values, i, j, k);
    }
    SameCount(fs, rs);
  }

  lemma {:induction false} SameCount(fs: set<nat>, rs: set<(nat, nat)>)
    requires forall i: nat :: i in fs ==> exists j: nat :: (i, j) in rs
    requires forall i: nat, j: nat :: (i, j) in rs ==> i in fs
    requires forall i: nat, j: nat, k: nat :: (i, j) in rs && (i, k) in rs ==> j == k
    ensures |fs| == |rs|
    decreases |fs|
  {
    if fs == {} {
      assert forall p :: p in rs ==> p.0 in fs;
      assert rs == {};
    } else {
      var i :| i in fs;
      var j: nat :| (i, j) in rs;
      SameCount(fs - {i}, rs - {(i, j)});
    }
  }
}
