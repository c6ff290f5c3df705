/** What editing a rule does to the messages that follow, and what a disabled rule is spared. */
module RuleEdits {
  import opened AlertTypes
  import opened AlertTable
  import opened RuleEngine
  import opened Hysteresis
  import opened Retry
  import opened SerialRuns
  import opened SerialTheorems
  import opened Protocol
  import opened ActiveBound

  // ---- Edited rules ----

  /** The reading of the rule that a message of its device gives, by the columns of the rule's row. */
  function ReadingBy(row: RuleRow, m: Message): Option<bool> {
    if row.enabled && row.metric in m.readings
    then Some(CompareThreshold(m.readings[row.metric], row.operator, row.threshold))
    else None
  }

  /** A rule that is disabled is not evaluated, takes no decision, gets no row and keeps its streak and its alerts. */
  lemma {:induction false} DisabledRuleIsIgnored(w: World, m: Message, script: Script, rule: Id, n: nat)
    requires Consistent(w.db) && Possible(w, Telemetry(m, script), n)
    requires rule in w.db.rules && !w.db.rules[rule].enabled
    ensures var ev := Telemetry(m, script);
            && ReadingOf(ev, rule) == None && DecisionOf(w, ev, rule, n) == None
            && View(After(w, ev, n), rule) == View(w, rule)
            && RowCount(After(w, ev, n).db.alerts, rule) == RowCount(w.db.alerts, rule)
  {
    if Consults(script) {
      assert rule in w.db.owner;
      var i := FindOwnRule(script.rules.value, m.readings, rule);
      if OwnReading(script.rules.value, m.readings, rule).Some? {
        assert false;
      }
      hide EvaluateAll, OwnReading, ActiveCount, RowCount, RunWrites, Consistent, Possible;
      EvaluationMatchesView(w, m, script, rule, n);
      var ds := EvaluationOf(w, m, script, n).decisions;
      assert IndexFor(ds, rule) == |ds|;
      EffectOnOtherRule(w.db.alerts, m.device, m.at, ds, script.outs, rule);
    }
  }

  /** A message that consults the rules gives a rule of its device the reading its row asks for. */
  lemma ReadingOfConsulted(w: World, m: Message, script: Script, rule: Id, n: nat)
    requires Consistent(w.db) && Possible(w, Telemetry(m, script), n) && Consults(script)
    requires rule in w.db.rules && w.db.rules[rule].device == m.device
    ensures ReadingOf(Telemetry(m, script), rule) == ReadingBy(w.db.rules[rule], m)
  {
    if w.db.rules[rule].enabled {
      ReadingOfRow(w, Telemetry(m, script), rule, n);
    } else {
      DisabledRuleIsIgnored(w, m, script, rule, n);
    }
  }

  /**
    * An update takes effect with the next message: the rule is evaluated by the new metric, operator and
    * threshold, or not at all if it was disabled. Its streak and its alerts are as they were, and so is
    * what every other rule reads.
    */
  lemma {:induction false} UpdateTakesEffect(
    w: World, id: Id, metric: string, operator: Operator, threshold: real, severity: string, enabled: bool,
    m: Message, script: Script, n: nat)
    requires Consistent(w.db) && id in w.db.rules
    requires operator in {Gt, Gte, Lt, Lte} && severity in {"warning", "critical"}
    requires var after := After(w, Api(UpdateRule(id, metric, operator, threshold, severity, enabled)), n);
             Possible(after, Telemetry(m, script), n) && Consults(script)
    ensures var after := After(w, Api(UpdateRule(id, metric, operator, threshold, severity, enabled)), n);
            var ev := Telemetry(m, script);
            && (m.device == w.db.rules[id].device ==>
                  ReadingOf(ev, id) ==
                  if enabled && metric in m.readings then Some(CompareThreshold(m.readings[metric], operator, threshold))
                  else None)
            && View(after, id) == View(w, id)
            && forall other :: other in w.db.rules && other != id && w.db.rules[other].device == m.device ==>
                 ReadingOf(ev, other) == ReadingBy(w.db.rules[other], m)
  {
    hide Consistent, Possible, ReadingOf, After, AfterCall, Succeeds, View;
    var after := After(w, Api(UpdateRule(id, metric, operator, threshold, severity, enabled)), n);
    UpdatedWorld(w, id, metric, operator, threshold, severity, enabled, n);
    if m.device == w.db.rules[id].device {
      ReadingOfConsulted(after, m, script, id, n);
    }
    forall other | other in w.db.rules && other != id && w.db.rules[other].device == m.device
      ensures ReadingOf(Telemetry(m, script), other) == ReadingBy(w.db.rules[other], m)
    {
      ReadingOfConsulted(after, m, script, other, n);
    }
  }

  lemma UpdatedWorld(
    w: World, id: Id, metric: string, operator: Operator, threshold: real, severity: string, enabled: bool, n: nat)
    requires Consistent(w.db) && id in w.db.rules
    requires operator in {Gt, Gte, Lt, Lte} && severity in {"warning", "critical"}
    ensures var after := After(w, Api(UpdateRule(id, metric, operator, threshold, severity, enabled)), n);
            var row := RuleRow(w.db.rules[id].device, metric, operator, threshold, severity, enabled);
            && after == World(w.db.(rules := w.db.rules[id := row]), w.streaks)
            && Consistent(after.db) && View(after, id) == View(w, id)
  {
    ConsistentCall(w.db, UpdateRule(id, metric, operator, threshold, severity, enabled));
  }

  /** A new rule is evaluated from the next message of its device on. */
  lemma {:induction false} CreateTakesEffect(w: World, id: Id, row: RuleRow, m: Message, script: Script, n: nat)
    requires Consistent(w.db) && id !in w.db.owner && row.device in w.db.devices
    requires row.operator in {Gt, Gte, Lt, Lte} && row.severity in {"warning", "critical"}
    requires Possible(After(w, Api(CreateRule(id, row)), n), Telemetry(m, script), n) && Consults(script)
    requires m.device == row.device
    ensures ReadingOf(Telemetry(m, script), id) == ReadingBy(row, m)
    ensures !RuleActive(After(w, Api(CreateRule(id, row)), n), id)
  {
    var after := After(w, Api(CreateRule(id, row)), n);
    ConsistentCall(w.db, CreateRule(id, row));
    if RuleActive(after, id) {
      var i := FindActiveRow(w.db.alerts, id);
    }
    hide Consistent, Possible, ReadingOf;
    ReadingOfConsulted(after, m, script, id, n);
  }

  // ---- Rules that stay off ----

  /** The rule is disabled or gone. */
  predicate Off(db: Tables, rule: Id) {
    rule in db.rules ==> !db.rules[rule].enabled
  }

  ghost predicate OffThroughout(s: State, acts: seq<Action>, rule: Id, n: nat) {
    Off(Exec(s, acts, n).world.db, rule) && (acts != [] ==> OffThroughout(s, Init(acts), rule, n))
  }

  /** No worker holds the rule. */
  ghost predicate Unheld(s: State, rule: Id) {
    forall w :: 0 <= w < |s.workers| ==> WithoutRule(s.workers[w], rule)
  }

  predicate WithoutRule(p: Worker, rule: Id) {
    match p
    case Idle => true
    case LoadingRules(_) => true
    case LoadingActive(_, rules) => forall i :: 0 <= i < |rules| ==> rules[i].id != rule
    case Evaluating(_, rules, _) => forall i :: 0 <= i < |rules| ==> rules[i].id != rule
    case Applying(_, ds, _) => Unnamed(ds, rule)
  }

  /** The rows of a rule, by position. */
  predicate SameRows(before: seq<Alert>, after: seq<Alert>, rule: Id) {
    && |before| <= |after|
    && (forall i :: 0 <= i < |before| && before[i].rule == rule ==> after[i] == before[i])
    && (forall i :: 0 <= i < |after| && after[i].rule == rule ==> i < |before| && before[i].rule == rule)
  }

  lemma OffStep(s: State, a: Action, rule: Id, n: nat)
    requires Inv(s) && Unheld(s, rule) && Off(s.world.db, rule) && IsWorkerStep(a) && Enabled(s, a)
    ensures var (world, p) := StepWorker(s, a, n);
            && WithoutRule(p, rule) && SameRows(s.world.db.alerts, world.db.alerts, rule)
            && StreakOf(world.streaks, rule) == StreakOf(s.world.streaks, rule)
  {
    match a
    case Dequeue(w, m) =>
    case LoadRules(w, rules) =>
      if rules.Some? {
        forall i | 0 <= i < |rules.value| ensures rules.value[i].id != rule {
          assert EnabledRule(s.world.db, s.workers[w].m.device, rules.value[i]);
        }
      }
    case LoadActive(w, ok) => assert WithoutRule(s.workers[w], rule);
    case Evaluate(w) =>
      var p := s.workers[w];
      assert WithoutRule(p, rule);
      UnlistedUntouched(p.rules, p.m.readings, p.active, s.world.streaks, n, rule);
      DecisionsAreListed(p.rules, p.m.readings, p.active, s.world.streaks, n);
      var ds := EvaluateAll(p.rules, p.m.readings, p.active, s.world.streaks, n).decisions;
      forall j | 0 <= j < |ds| ensures ds[j].rule.id != rule { assert ds[j] in ds; }
    case Write(w, o) =>
      var p := s.workers[w];
      assert WithoutRule(p, rule) && WorkerOk(s.world.db.owner, p);
      assert p.decisions[p.cursor.next].rule.id != rule;
  }

  /** One step of anything: workers never come to hold the rule, and only people touch its rows. */
  lemma OffNext(s: State, a: Action, rule: Id, n: nat)
    requires Inv(s) && Unheld(s, rule) && Off(s.world.db, rule)
    ensures var after := Next(s, a, n);
            && Unheld(after, rule)
            && StreakOf(after.world.streaks, rule) == (if a.Crash? then NO_STREAK else StreakOf(s.world.streaks, rule))
            && RowCount(after.world.db.alerts, rule) == RowCount(s.world.db.alerts, rule)
            && (!a.Call? ==> SameRows(s.world.db.alerts, after.world.db.alerts, rule))
  {
    hide EvaluateAll, WriteOne, ListsEnabledRules, Inv, WithoutRule, RowCount, SameRows;
    if !Enabled(s, a) || a.Crash? {
      SameRowsCount(s.world.db.alerts, s.world.db.alerts, rule);
      IdleWithoutRule(rule);
    } else if a.Call? {
      CallKeepsRowCount(s.world.db, a.call, rule);
    } else {
      OffStep(s, a, rule, n);
      SameRowsCount(s.world.db.alerts, StepWorker(s, a, n).0.db.alerts, rule);
    }
  }

  lemma IdleWithoutRule(rule: Id)
    ensures WithoutRule(Idle, rule)
  {
  }

  lemma {:induction false} SameRowsCount(before: seq<Alert>, after: seq<Alert>, rule: Id)
    requires SameRows(before, after, rule) || before == after
    ensures SameRows(before, after, rule) && RowCount(after, rule) == RowCount(before, rule)
    decreases |after|
  {
    if |after| > |before| {
      SameRowsCount(before, Init(after), rule);
    } else if after != [] {
      SameRowsCount(Init(before), Init(after), rule);
    }
  }

  lemma {:induction false} RowCountUpdate(alerts: seq<Alert>, i: nat, a: Alert, rule: Id)
    requires i < |alerts| && a.rule == alerts[i].rule
    ensures RowCount(alerts[i := a], rule) == RowCount(alerts, rule)
  {
    var updated := alerts[i := a];
    if i == |alerts| - 1 {
      assert Init(updated) == Init(alerts);
    } else {
      assert Init(updated) == Init(alerts)[i := a];
      RowCountUpdate(Init(alerts), i, a, rule);
    }
  }

  lemma CallKeepsRowCount(db: Tables, call: ApiCall, rule: Id)
    ensures RowCount(AfterCall(db, call).alerts, rule) == RowCount(db.alerts, rule)
  {
    if (call.Acknowledge? || call.ResolveAlert?) && Succeeds(db, call) {
      RowCountUpdate(db.alerts, call.alert, AfterCall(db, call).alerts[call.alert], rule);
    }
  }

  lemma SameRowsTransitive(a: seq<Alert>, b: seq<Alert>, c: seq<Alert>, rule: Id)
    requires SameRows(a, b, rule) && SameRows(b, c, rule)
    ensures SameRows(a, c, rule)
  {
  }

  /**
    * A rule that is disabled throughout a run, in every interleaving and whatever fails, gets no row; its
    * streak is kept, or lost with all others in a restart; and if nobody uses the API, its alerts stay as
    * they are.
    */
  lemma {:induction false} OffRuleUntouched(s: State, acts: seq<Action>, rule: Id, n: nat)
    requires Quiescent(s) && OffThroughout(s, acts, rule, n)
    ensures var after := Exec(s, acts, n);
            && Unheld(after, rule)
            && RowCount(after.world.db.alerts, rule) == RowCount(s.world.db.alerts, rule)
            && (StreakOf(after.world.streaks, rule) ==
                if exists i :: 0 <= i < |acts| && acts[i].Crash? then NO_STREAK else StreakOf(s.world.streaks, rule))
            && ((forall i :: 0 <= i < |acts| ==> !acts[i].Call?) ==>
                  SameRows(s.world.db.alerts, after.world.db.alerts, rule))
  {
    hide Next, Inv, SameRows, RowCount, Off;
    if acts == [] {
      SameRowsCount(s.world.db.alerts, s.world.db.alerts, rule);
      IdleWithoutRule(rule);
    } else {
      OffRuleUntouched(s, Init(acts), rule, n);
      InvExec(s, Init(acts), n);
      var before, a := Exec(s, Init(acts), n), Last(acts);
      OffNext(before, a, rule, n);
      CrashesBefore(acts);
      if forall i :: 0 <= i < |acts| ==> !acts[i].Call? {
        assert !acts[|acts| - 1].Call?;
        SameRowsTransitive(s.world.db.alerts, before.world.db.alerts, Next(before, a, n).world.db.alerts, rule);
      }
    }
  }

  lemma CrashesBefore(acts: seq<Action>)
    requires acts != []
    ensures (exists i :: 0 <= i < |acts| && acts[i].Crash?) <==>
            Last(acts).Crash? || exists i :: 0 <= i < |Init(acts)| && Init(acts)[i].Crash?
  {
    if i :| 0 <= i < |Init(acts)| && Init(acts)[i].Crash? { assert acts[i].Crash?; }
    if Last(acts).Crash? { assert acts[|acts| - 1].Crash?; }
    if i :| 0 <= i < |acts| && acts[i].Crash? {
      if i < |acts| - 1 { assert Init(acts)[i].Crash?; }
    }
  }
}
