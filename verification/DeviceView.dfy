/** What one device's messages can see and change, and why other devices' messages cannot. */
module DeviceView {
  import opened AlertTypes
  import opened AlertTable
  import opened RuleEngine
  import opened Retry
  import opened SerialRuns

  /** The device's rows, in table order. */
  function DeviceRows(alerts: seq<Alert>, device: Id): seq<Alert> {
    if alerts == [] then []
    else DeviceRows(Init(alerts), device) + if Last(alerts).device == device then [Last(alerts)] else []
  }

  predicate SameStreak(a: map<Id, BreachState>, b: map<Id, BreachState>, id: Id) {
    (id in a <==> id in b) && StreakOf(a, id) == StreakOf(b, id)
  }

  /** The two databases differ in their alerts only. */
  predicate SameRules(a: World, b: World) {
    && a.db.devices == b.db.devices && a.db.users == b.db.users
    && a.db.rules == b.db.rules && a.db.owner == b.db.owner
  }

  /** The device cannot tell the two worlds apart. */
  ghost predicate Agree(a: World, b: World, device: Id) {
    && SameRules(a, b)
    && DeviceRows(a.db.alerts, device) == DeviceRows(b.db.alerts, device)
    && forall id :: Owned(a.db.owner, id, device) ==> SameStreak(a.streaks, b.streaks, id)
  }

  /** Streaks of ids that no rule ever had. */
  ghost predicate AgreeOnUnowned(a: World, b: World) {
    forall id :: id !in a.db.owner ==> SameStreak(a.streaks, b.streaks, id)
  }

  // ---- Rows ----

  lemma DeviceRowsAppend(alerts: seq<Alert>, a: Alert, device: Id)
    ensures DeviceRows(alerts + [a], device) == DeviceRows(alerts, device) + if a.device == device then [a] else []
  {
    assert Init(alerts + [a]) == alerts;
  }

  lemma {:induction false} DeviceRowsAutoResolve(alerts: seq<Alert>, rule: Id, at: Time, device: Id)
    ensures DeviceRows(AutoResolveRule(alerts, rule, at), device) == AutoResolveRule(DeviceRows(alerts, device), rule, at)
  {
    if alerts != [] {
      DeviceRowsAutoResolve(Init(alerts), rule, at, device);
      var resolved := AutoResolveRule(alerts, rule, at);
      assert Init(resolved) == AutoResolveRule(Init(alerts), rule, at);
      assert Last(resolved).device == Last(alerts).device;
      hide AutoResolveRule, DeviceRows;
      AutoResolveAppend(DeviceRows(Init(alerts), device), Last(alerts), rule, at);
    }
  }

  lemma AutoResolveAppend(alerts: seq<Alert>, a: Alert, rule: Id, at: Time)
    ensures AutoResolveRule(alerts + [a], rule, at) ==
            AutoResolveRule(alerts, rule, at) + [if ActiveFor(a, rule) then AutoResolved(a, at) else a]
  {
  }

  /** A statement acts on its device's rows by themselves. */
  lemma StatementSeesOwnRows(alerts: seq<Alert>, device: Id, d: RuleDecision, at: Time)
    ensures DeviceRows(ApplyOne(alerts, device, d, at), device) == ApplyOne(DeviceRows(alerts, device), device, d, at)
  {
    if d.decision.CreateAlert? {
      DeviceRowsAppend(alerts, NewAlert(d, device, at), device);
    } else {
      DeviceRowsAutoResolve(alerts, d.rule.id, at, device);
    }
  }

  lemma {:induction false} RowsOfOtherRules(alerts: seq<Alert>, rule: Id, at: Time, device: Id)
    requires forall i :: 0 <= i < |alerts| && alerts[i].rule == rule ==> alerts[i].device != device
    ensures DeviceRows(AutoResolveRule(alerts, rule, at), device) == DeviceRows(alerts, device)
  {
    if alerts != [] {
      RowsOfOtherRules(Init(alerts), rule, at, device);
      var resolved := AutoResolveRule(alerts, rule, at);
      assert Init(resolved) == AutoResolveRule(Init(alerts), rule, at);
    }
  }

  /** A statement for one device's rule leaves every other device's rows alone. */
  lemma StatementLeavesOthers(db: Tables, device: Id, d: RuleDecision, at: Time, other: Id)
    requires Consistent(db) && Owned(db.owner, d.rule.id, device) && other != device
    ensures DeviceRows(ApplyOne(db.alerts, device, d, at), other) == DeviceRows(db.alerts, other)
  {
    if d.decision.CreateAlert? {
      DeviceRowsAppend(db.alerts, NewAlert(d, device, at), other);
    } else {
      RowsOfOtherRules(db.alerts, d.rule.id, at, other);
    }
  }

  lemma {:induction false} WritesSeeOwnRows(
    alerts: seq<Alert>, device: Id, at: Time, ds: seq<RuleDecision>, outs: seq<Outcome>)
    ensures DeviceRows(RunWrites(alerts, device, at, ds, outs).alerts, device) ==
            RunWrites(DeviceRows(alerts, device), device, at, ds, outs).alerts
  {
    hide DeviceRows, ApplyOne, Advance;
    if outs != [] {
      WritesSeeOwnRows(alerts, device, at, ds, Init(outs));
      CursorIsProgress(alerts, device, at, ds, Init(outs));
      CursorIsProgress(DeviceRows(alerts, device), device, at, ds, Init(outs));
      var p := RunWrites(alerts, device, at, ds, Init(outs));
      if p.cursor.Running? {
        StatementSeesOwnRows(p.alerts, device, ds[p.cursor.next], at);
      }
    }
  }

  lemma OnDeviceIsOwned(db: Tables, device: Id, d: RuleDecision)
    requires Consistent(db) && OnDevice(db, device, d)
    ensures Owned(db.owner, d.rule.id, device)
  {
  }

  lemma {:induction false} WritesLeaveOthers(
    db: Tables, device: Id, at: Time, ds: seq<RuleDecision>, outs: seq<Outcome>, other: Id)
    requires Consistent(db) && other != device && forall j :: 0 <= j < |ds| ==> OnDevice(db, device, ds[j])
    ensures DeviceRows(RunWrites(db.alerts, device, at, ds, outs).alerts, other) == DeviceRows(db.alerts, other)
  {
    hide DeviceRows, ApplyOne, Advance, Consistent;
    if outs != [] {
      WritesLeaveOthers(db, device, at, ds, Init(outs), other);
      ConsistentWrites(db, device, at, ds, Init(outs));
      var p := RunWrites(db.alerts, device, at, ds, Init(outs));
      if p.cursor.Running? {
        OnDeviceIsOwned(db, device, ds[p.cursor.next]);
        StatementLeavesOthers(db.(alerts := p.alerts), device, ds[p.cursor.next], at, other);
      }
    }
  }

  lemma {:induction false} RowIsDeviceRow(alerts: seq<Alert>, device: Id, a: Alert)
    requires a.device == device
    ensures a in alerts <==> a in DeviceRows(alerts, device)
  {
    if alerts != [] {
      RowIsDeviceRow(Init(alerts), device, a);
      assert a in alerts <==> a in Init(alerts) || a == Last(alerts);
    }
  }

  predicate ActiveRow(alerts: seq<Alert>, device: Id, id: Id) {
    exists a :: a in alerts && a.device == device && a.Active() && a.rule == id
  }

  lemma ActiveIdsAreActiveRows(alerts: seq<Alert>, device: Id, id: Id)
    ensures id in ActiveRuleIds(alerts, device) <==> ActiveRow(alerts, device, id)
  {
    if ActiveRow(alerts, device, id) {
      var a :| a in alerts && a.device == device && a.Active() && a.rule == id;
      var i :| 0 <= i < |alerts| && alerts[i] == a;
    }
    if id in ActiveRuleIds(alerts, device) {
      var i :| 0 <= i < |alerts| && alerts[i].device == device && alerts[i].Active() && alerts[i].rule == id;
      assert alerts[i] in alerts;
    }
  }

  /** The active-rule query depends on the device's rows only. */
  lemma SnapshotSeesOwnRows(a: seq<Alert>, b: seq<Alert>, device: Id)
    requires DeviceRows(a, device) == DeviceRows(b, device)
    ensures ActiveRuleIds(a, device) == ActiveRuleIds(b, device)
  {
    forall id ensures id in ActiveRuleIds(a, device) <==> id in ActiveRuleIds(b, device) {
      ActiveIdsAreActiveRows(a, device, id);
      ActiveIdsAreActiveRows(b, device, id);
      forall x: Alert | x.device == device ensures x in a <==> x in b {
        RowIsDeviceRow(a, device, x);
        RowIsDeviceRow(b, device, x);
      }
    }
  }

  /** Tables with the same rows on every device hold the same rows. */
  lemma {:induction false} CountOnDevice(alerts: seq<Alert>, a: Alert)
    ensures multiset(alerts)[a] == multiset(DeviceRows(alerts, a.device))[a]
  {
    if alerts != [] {
      CountOnDevice(Init(alerts), a);
      assert alerts == Init(alerts) + [Last(alerts)];
    }
  }

  lemma SameRowsEverywhere(a: seq<Alert>, b: seq<Alert>)
    requires forall device :: DeviceRows(a, device) == DeviceRows(b, device)
    ensures multiset(a) == multiset(b)
  {
    forall x: Alert ensures multiset(a)[x] == multiset(b)[x] {
      CountOnDevice(a, x);
      CountOnDevice(b, x);
    }
  }

  // ---- Whole messages ----

  lemma AgreeTransitive(a: World, b: World, c: World, device: Id)
    requires Agree(a, b, device) && Agree(b, c, device)
    ensures Agree(a, c, device)
  {
    forall id | Owned(a.db.owner, id, device) ensures SameStreak(a.streaks, c.streaks, id) {
      assert Owned(b.db.owner, id, device);
    }
  }

  lemma AgreeSymmetric(a: World, b: World, device: Id)
    requires Agree(a, b, device)
    ensures Agree(b, a, device)
  {
    forall id | Owned(b.db.owner, id, device) ensures SameStreak(b.streaks, a.streaks, id) {
      assert Owned(a.db.owner, id, device);
    }
  }

  ghost predicate ListsOwned(db: Tables, device: Id, rules: seq<Rule>) {
    forall i :: 0 <= i < |rules| ==> Owned(db.owner, rules[i].id, device)
  }

  lemma ListedAreOwned(db: Tables, device: Id, rules: seq<Rule>)
    requires Consistent(db) && ListsEnabledRules(db, device, rules)
    ensures ListsOwned(db, device, rules)
  {
    forall i | 0 <= i < |rules| ensures Owned(db.owner, rules[i].id, device) {
      assert EnabledRule(db, device, rules[i]);
    }
  }

  /** An evaluation touches its own device's streaks only. */
  lemma EvaluationLeavesOthers(
    db: Tables, device: Id, rules: seq<Rule>, readings: map<string, real>, active: set<Id>,
    streaks: map<Id, BreachState>, n: nat, id: Id)
    requires ListsOwned(db, device, rules) && !Owned(db.owner, id, device)
    ensures SameStreak(EvaluateAll(rules, readings, active, streaks, n).streaks, streaks, id)
  {
    UnlistedUntouched(rules, readings, active, streaks, n, id);
  }

  /** Two evaluations of the same rules by worlds the device cannot tell apart. */
  lemma EvaluationsAgree(a: World, b: World, m: Message, rules: seq<Rule>, n: nat)
    requires Agree(a, b, m.device) && ListsOwned(a.db, m.device, rules)
    ensures var active := ActiveRuleIds(a.db.alerts, m.device);
            var e := EvaluateAll(rules, m.readings, active, a.streaks, n);
            var f := EvaluateAll(rules, m.readings, active, b.streaks, n);
            && active == ActiveRuleIds(b.db.alerts, m.device)
            && e.decisions == f.decisions
            && forall id :: Owned(a.db.owner, id, m.device) ==> SameStreak(e.streaks, f.streaks, id)
  {
    SnapshotSeesOwnRows(a.db.alerts, b.db.alerts, m.device);
    EvaluationReadsOwnStreaks(rules, m.readings, ActiveRuleIds(a.db.alerts, m.device), a.streaks, b.streaks, n);
  }

  /** A message of the device does the same in worlds the device cannot tell apart. */
  lemma {:induction false} ProcessAgrees(a: World, b: World, m: Message, script: Script, n: nat)
    requires Agree(a, b, m.device) && Consults(script) && ListsOwned(a.db, m.device, script.rules.value)
    ensures EvaluationOf(a, m, script, n).decisions == EvaluationOf(b, m, script, n).decisions
    ensures Agree(Process(a, m, script, n), Process(b, m, script, n), m.device)
  {
    EvaluationsAgree(a, b, m, script.rules.value, n);
    var ds := EvaluationOf(a, m, script, n).decisions;
    WritesSeeOwnRows(a.db.alerts, m.device, m.at, ds, script.outs);
    WritesSeeOwnRows(b.db.alerts, m.device, m.at, ds, script.outs);
  }

  /** A message of one device is invisible to every other. */
  lemma {:induction false} ProcessLeavesOthers(a: World, m: Message, script: Script, n: nat, other: Id)
    requires Consistent(a.db) && other != m.device
    requires script.rules.Some? ==> ListsEnabledRules(a.db, m.device, script.rules.value)
    ensures Agree(a, Process(a, m, script, n), other)
  {
    if Consults(script) {
      var rules := script.rules.value;
      var active := ActiveRuleIds(a.db.alerts, m.device);
      var ds := EvaluationOf(a, m, script, n).decisions;
      ListedAreOwned(a.db, m.device, rules);
      DecisionsAreListed(rules, m.readings, active, a.streaks, n);
      forall j | 0 <= j < |ds| ensures OnDevice(a.db, m.device, ds[j]) { assert ds[j] in ds; }
      WritesLeaveOthers(a.db, m.device, m.at, ds, script.outs, other);
      forall id | Owned(a.db.owner, id, other) ensures SameStreak(a.streaks, Process(a, m, script, n).streaks, id) {
        EvaluationLeavesOthers(a.db, m.device, rules, m.readings, active, a.streaks, n, id);
      }
    }
  }

  lemma ProcessLeavesUnowned(a: World, m: Message, script: Script, n: nat)
    requires Consistent(a.db)
    requires script.rules.Some? ==> ListsEnabledRules(a.db, m.device, script.rules.value)
    ensures AgreeOnUnowned(a, Process(a, m, script, n))
  {
    if Consults(script) {
      ListedAreOwned(a.db, m.device, script.rules.value);
      forall id | id !in a.db.owner ensures SameStreak(a.streaks, Process(a, m, script, n).streaks, id) {
        EvaluationLeavesOthers(a.db, m.device, script.rules.value, m.readings,
                               ActiveRuleIds(a.db.alerts, m.device), a.streaks, n, id);
      }
    }
  }
}
