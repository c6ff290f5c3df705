/** The ingestion store and the API handlers as they run: loops over rows and statements on the tables in place. */
module Store {
  import opened AlertTypes
  import opened AlertTable
  import opened RuleEngine
  import opened Retry
  import opened SerialRuns

  /** The database's answers to the first k statements of a message. */
  function Answers(env: nat -> Outcome, k: nat): (r: seq<Outcome>)
    ensures |r| == k
  {
    seq(k, i requires 0 <= i < k => env(i))
  }

  lemma NextAnswer(env: nat -> Outcome, k: nat, start: seq<Alert>, device: Id, at: Time, ds: seq<RuleDecision>)
    ensures RunWrites(start, device, at, ds, Answers(env, k + 1)) ==
            WriteOne(RunWrites(start, device, at, ds, Answers(env, k)), device, at, ds, env(k))
  {
    assert Init(Answers(env, k + 1)) == Answers(env, k) && Last(Answers(env, k + 1)) == env(k);
  }

  datatype RuleInput = RuleInput(
    device: Id, metric: string, operator: Operator, threshold: real, severity: string, enabled: Option<bool>)

  /** The row a request asks for; a missing `enabled` means true. */
  function RowOf(input: RuleInput): RuleRow {
    RuleRow(input.device, input.metric, input.operator, input.threshold, input.severity,
            if input.enabled.Some? then input.enabled.value else true)
  }

  function UpdateOf(id: Id, input: RuleInput): ApiCall {
    var row := RowOf(input);
    UpdateRule(id, row.metric, row.operator, row.threshold, row.severity, row.enabled)
  }

  function TransitionOf(alert: nat, user: Id, acknowledge: bool, at: Time): ApiCall {
    if acknowledge then Acknowledge(alert, user, at) else ResolveAlert(alert, user, at)
  }

  class Database {
    var t: Tables

    constructor (initial: Tables)
      ensures t == initial
    {
      t := initial;
    }

    // ---- Ingestion ----

    /** The enabled rules of the device with the columns of their rows: none else, none missing, none twice. */
    method LoadEnabledRules(device: Id) returns (rules: seq<Rule>)
      ensures ListsEnabledRules(t, device, rules)
      ensures forall r :: r in rules ==>
                && r.id in t.rules
                && t.rules[r.id] == RuleRow(device, r.metric, r.operator, r.threshold, r.severity, true)
      ensures forall id :: id in t.rules && t.rules[id].device == device && t.rules[id].enabled ==>
                exists i :: 0 <= i < |rules| && rules[i].id == id
    {
      rules := [];
      var rest := t.rules.Keys;
      while rest != {}
        invariant rest <= t.rules.Keys
        invariant DistinctIds(rules)
        invariant forall i :: 0 <= i < |rules| ==> EnabledRule(t, device, rules[i]) && rules[i].id !in rest
        invariant forall id :: id in t.rules && id !in rest && t.rules[id].device == device && t.rules[id].enabled ==>
                    exists i :: 0 <= i < |rules| && rules[i].id == id
        decreases rest
      {
        var id :| id in rest;
        var row := t.rules[id];
        ghost var before := rules;
        if row.device == device && row.enabled {
          rules := rules + [Rule(id, row.metric, row.operator, row.threshold, row.severity)];
          assert rules[|before|].id == id;
        }
        rest := rest - {id};
        forall other | other in t.rules && other !in rest && t.rules[other].device == device && t.rules[other].enabled
          ensures exists i :: 0 <= i < |rules| && rules[i].id == other
        {
          if other != id {
            var i :| 0 <= i < |before| && before[i].id == other;
            assert rules[i].id == other;
          }
        }
      }
    }

    method LoadActiveRuleIds(device: Id) returns (active: set<Id>)
      ensures active == ActiveRuleIds(t.alerts, device)
      ensures forall id :: id in active <==>
                exists i :: 0 <= i < |t.alerts| && t.alerts[i].device == device && Unresolved(t.alerts[i], id)
    {
      active := {};
      for i := 0 to |t.alerts|
        invariant forall id :: id in active <==>
                    exists j :: 0 <= j < i && t.alerts[j].device == device && t.alerts[j].Active() && t.alerts[j].rule == id
      {
        if t.alerts[i].device == device && t.alerts[i].Active() {
          active := active + {t.alerts[i].rule};
        }
      }
    }

    /** One pass over the decisions; the first error ends it. `from` statements were answered before it. */
    method ApplyDecisions(
      device: Id, ds: seq<RuleDecision>, at: Time, env: nat -> Outcome, from: nat,
      ghost start: seq<Alert>, ghost attempt: nat)
      returns (ok: bool, to: nat)
      requires 1 <= attempt <= MAX_ATTEMPTS
      requires ds != [] ==> RunWrites(start, device, at, ds, Answers(env, from)) == Progress(t.alerts, Running(attempt, 0))
      requires ds == [] ==> RunWrites(start, device, at, ds, Answers(env, from)) == Progress(t.alerts, Finished(true))
      modifies this
      ensures t == old(t).(alerts := t.alerts)
      ensures RunWrites(start, device, at, ds, Answers(env, to)) ==
              Progress(t.alerts,
                       if ok then Finished(true)
                       else if attempt < MAX_ATTEMPTS then Running(attempt + 1, 0)
                       else Finished(false))
    {
      hide RunWrites, Answers;
      to := from;
      for i := 0 to |ds|
        invariant t == old(t).(alerts := t.alerts)
        invariant RunWrites(start, device, at, ds, Answers(env, to)) ==
                  Progress(t.alerts, if i == |ds| then Finished(true) else Running(attempt, i))
      {
        var answer := env(to);
        NextAnswer(env, to, start, device, at, ds);
        if !answer.Rejected? {
          t := t.(alerts := ApplyOne(t.alerts, device, ds[i], at));
        }
        to := to + 1;
        if !answer.Committed? {
          return false, to;
        }
      }
      ok := true;
    }

    /** Up to three passes, each over the whole list. */
    method ApplyDecisionsWithRetry(device: Id, ds: seq<RuleDecision>, at: Time, env: nat -> Outcome)
      returns (ok: bool, used: nat)
      modifies this
      ensures t == old(t).(alerts := t.alerts)
      ensures RunWrites(old(t.alerts), device, at, ds, Answers(env, used)) == Progress(t.alerts, Finished(ok))
    {
      ghost var start := t.alerts;
      assert Answers(env, 0) == [];
      used := 0;
      ok := false;
      for attempt := 1 to MAX_ATTEMPTS + 1
        invariant t == old(t).(alerts := t.alerts)
        invariant ds == [] ==> attempt == 1
        invariant RunWrites(start, device, at, ds, Answers(env, used)) ==
                  Progress(t.alerts,
                           if ds == [] then Finished(true)
                           else if attempt <= MAX_ATTEMPTS then Running(attempt, 0)
                           else Finished(false))
      {
        ok, used := ApplyDecisions(device, ds, at, env, used, start, attempt);
        if ok {
          return true, used;
        }
      }
      ok := false;
    }

    // ---- The HTTP API ----

    /**
      * Acknowledge or resolve: one guarded update, then, if it matched nothing, a lookup to tell 404 from
      * 409. A lookup that itself fails reads as "not found".
      */
    method TransitionAlert(
      alert: nat, user: Id, acknowledge: bool, at: Time, bodyOk: bool, updateFails: bool, lookupFails: bool)
      returns (status: nat, row: Option<Alert>)
      modifies this
      ensures var asked := bodyOk && user != "";
              var ran := asked && !updateFails;
              var known := alert < |old(t).alerts|;
              var allowed := known && if acknowledge then old(t).alerts[alert].status == Open
                                        else old(t).alerts[alert].status in {Open, Status.Acknowledged};
              && status in {200, 400, 404, 409, 500}
              && (status == 200 <==> ran && allowed && user in old(t).users)
              && (status == 400 <==> !asked)
              && (status == 404 <==> ran && !allowed && (lookupFails || !known))
              && (status == 409 <==> ran && !allowed && !lookupFails && known)
      ensures status != 200 ==> t == old(t) && row == None
      ensures status == 200 ==>
                var was := old(t).alerts[alert];
                var now := if acknowledge then was.(status := Status.Acknowledged, ackAt := Some(at), ackBy := Some(user))
                           else was.(status := Resolved, resolvedAt := Some(at), resolvedBy := Some(user));
                t == old(t).(alerts := old(t).alerts[alert := now]) && row == Some(now)
      ensures t == if status == 200 then AfterCall(old(t), TransitionOf(alert, user, acknowledge, at)) else old(t)
    {
      if !bodyOk || user == "" {
        return 400, None;
      }
      if updateFails {
        return 500, None;
      }
      if alert < |t.alerts| && (t.alerts[alert].status.Open? || (!acknowledge && t.alerts[alert].status.Acknowledged?)) {
        if user !in t.users {
          return 500, None;  // the foreign key to users
        }
        var a := t.alerts[alert];
        var after := if acknowledge then AcknowledgedBy(a, user, at) else ResolvedByUser(a, user, at);
        t := t.(alerts := t.alerts[alert := after]);
        return 200, Some(after);
      }
      var found := false;
      if !lookupFails {
        found := alert < |t.alerts|;
      }
      if !found {
        return 404, None;
      }
      return 409, None;
    }

    method CreateAlertRule(input: RuleInput, newId: Id, fails: bool) returns (status: nat)
      requires newId !in t.owner
      modifies this
      ensures status == 201 || status == 400
      ensures status == 201 <==>
              && input.device != "" && input.metric != "" && !fails
              && input.device in old(t).devices && input.operator in {Gt, Gte, Lt, Lte}
              && input.severity in {"warning", "critical"}
      ensures status == 400 ==> t == old(t)
      ensures status == 201 ==>
                var row := RuleRow(input.device, input.metric, input.operator, input.threshold, input.severity,
                                   input.enabled != Some(false));
                t == old(t).(rules := old(t).rules[newId := row], owner := old(t).owner[newId := input.device])
      ensures t == if status == 201 then AfterCall(old(t), CreateRule(newId, RowOf(input))) else old(t)
    {
      if input.device == "" || input.metric == "" || input.operator == Unknown("") || input.severity == "" {
        return 400;
      }
      var row := RowOf(input);
      if fails || row.device !in t.devices || !ChecksHold(row.operator, row.severity) {
        return 400;
      }
      t := t.(rules := t.rules[newId := row], owner := t.owner[newId := row.device]);
      return 201;
    }

    /** Every column but the device is overwritten. */
    method UpdateAlertRule(id: Id, input: RuleInput, bodyOk: bool, fails: bool) returns (status: nat)
      modifies this
      ensures status in {200, 400, 404}
      ensures status == 200 <==>
              && bodyOk && !fails && id in old(t).rules
              && input.operator in {Gt, Gte, Lt, Lte} && input.severity in {"warning", "critical"}
      ensures status == 404 <==> bodyOk && !fails && id !in old(t).rules
      ensures status != 200 ==> t == old(t)
      ensures status == 200 ==>
                var row := RuleRow(old(t).rules[id].device, input.metric, input.operator, input.threshold, input.severity,
                                   input.enabled != Some(false));
                t == old(t).(rules := old(t).rules[id := row])
      ensures t == if status == 200 then AfterCall(old(t), UpdateOf(id, input)) else old(t)
    {
      if !bodyOk || fails {
        return 400;
      }
      if id !in t.rules {
        return 404;
      }
      if !ChecksHold(input.operator, input.severity) {
        return 400;
      }
      t := t.(rules := t.rules[id := RowOf(input).(device := t.rules[id].device)]);
      return 200;
    }

    /** A rule that alerts still refer to cannot be deleted. */
    method DeleteAlertRule(id: Id, fails: bool) returns (status: nat)
      modifies this
      ensures var referred := exists i :: 0 <= i < |old(t).alerts| && old(t).alerts[i].rule == id;
              && status in {204, 404, 409, 500}
              && (status == 204 <==> !fails && id in old(t).rules && !referred)
              && (status == 404 <==> !fails && id !in old(t).rules)
              && (status == 409 <==> !fails && id in old(t).rules && referred)
      ensures t == if status == 204 then old(t).(rules := old(t).rules - {id}) else old(t)
      ensures t == if status == 204 then AfterCall(old(t), DeleteRule(id)) else old(t)
    {
      if fails {
        return 500;
      }
      if id !in t.rules {
        return 404;
      }
      for i := 0 to |t.alerts|
        invariant t == old(t)
        invariant forall j :: 0 <= j < i ==> t.alerts[j].rule != id
      {
        if t.alerts[i].rule == id {
          return 409;
        }
      }
      t := t.(rules := t.rules - {id});
      return 204;
    }
  }

  /**
    * A 404 does not mean that the alert does not exist: for every alert that is outside the allowed statuses,
    * a failing lookup makes the handler report it as not found.
    */
  method ExistingAlertReportedMissing(t: Tables, alert: nat, user: Id, acknowledge: bool, at: Time)
    returns (status: nat, after: Tables)
    requires alert < |t.alerts| && user != ""
    requires t.alerts[alert].status == Resolved || (acknowledge && t.alerts[alert].status == Status.Acknowledged)
    ensures status == 404 && after == t
  {
    var db := new Database(t);
    var row;
    status, row := db.TransitionAlert(alert, user, acknowledge, at, true, false, true);
    after := db.t;
  }

  /** Every decision of the message was written. */
  predicate Delivered(w: World, m: Message, script: Script, n: nat) {
    Consults(script) ==> CursorAfter(|EvaluationOf(w, m, script, n).decisions|, script.outs) == Finished(true)
  }

  /** `process` from the rules query on, run by itself. */
  class Ingestion {
    const store: Database
    const tracker: BreachTracker

    constructor (store: Database, tracker: BreachTracker)
      ensures this.store == store && this.tracker == tracker
    {
      this.store, this.tracker := store, tracker;
    }

    function Current(): World
      reads store, tracker
    {
      World(store.t, tracker.streaks)
    }

    method ProcessMessage(m: Message, n: nat, rulesOk: bool, activeOk: bool, env: nat -> Outcome)
      returns (ok: bool, ghost script: Script)
      modifies store, tracker
      ensures Current() == Process(old(Current()), m, script, n)
      ensures Possible(old(Current()), Telemetry(m, script), n)
      ensures !rulesOk || !activeOk ==> Current() == old(Current())
      ensures rulesOk == script.rules.Some? && activeOk == script.activeOk
      ensures exists used: nat :: script.outs == Answers(env, used)
      ensures ok <==>
              && rulesOk
              && (script.rules.value == [] || (activeOk && Delivered(old(Current()), m, script, n)))
    {
      assert Answers(env, 0) == [];
      script := Script(None, activeOk, []);
      if !rulesOk {
        return false, script;
      }
      var rules := store.LoadEnabledRules(m.device);
      script := Script(Some(rules), activeOk, []);
      if rules == [] {
        return true, script;
      }
      if !activeOk {
        return false, script;
      }
      var active := store.LoadActiveRuleIds(m.device);
      var decisions := tracker.Evaluate(rules, m.readings, active, n);
      if decisions == [] {
        return true, script;
      }
      ghost var before := store.t.alerts;
      var used;
      ok, used := store.ApplyDecisionsWithRetry(m.device, decisions, m.at, env);
      script := Script(Some(rules), activeOk, Answers(env, used));
      CursorIsProgress(before, m.device, m.at, decisions, Answers(env, used));
    }
  }
}
