/** The `alerts` and `alert_rules` tables as values, one function per SQL statement, and the write loop. */
module AlertTable {
  import opened AlertTypes

  const MAX_ATTEMPTS := 3

  /**
    * The tables. `owner` remembers the device of every rule id ever issued: ids are random UUIDs, never
    * reissued, and no statement changes a rule's device.
    */
  datatype Tables = Tables(
    devices: set<Id>, users: set<Id>, rules: map<Id, RuleRow>, owner: map<Id, Id>, alerts: seq<Alert>)

  predicate Owned(owner: map<Id, Id>, id: Id, device: Id) {
    id in owner && owner[id] == device
  }

  /** Foreign keys, and the engine's invariant that an alert sits on its rule's device. */
  ghost predicate Consistent(t: Tables) {
    && (forall id :: id in t.rules ==>
          id in t.owner && t.owner[id] == t.rules[id].device && t.rules[id].device in t.devices)
    && (forall i :: 0 <= i < |t.alerts| ==>
          t.alerts[i].rule in t.rules && t.rules[t.alerts[i].rule].device == t.alerts[i].device)
  }

  // ---- Queries ----

  predicate EnabledRule(t: Tables, device: Id, rule: Rule) {
    && rule.id in t.rules
    && var row := t.rules[rule.id];
    && row.device == device && row.enabled
    && rule == Rule(rule.id, row.metric, row.operator, row.threshold, row.severity)
  }

  /** `rules` is the result of the enabled-rules query for `device`, in whatever order it came back. */
  ghost predicate ListsEnabledRules(t: Tables, device: Id, rules: seq<Rule>) {
    && DistinctIds(rules)
    && (forall i :: 0 <= i < |rules| ==> EnabledRule(t, device, rules[i]))
    && (forall id :: id in t.rules && t.rules[id].device == device && t.rules[id].enabled ==>
          exists i :: 0 <= i < |rules| && rules[i].id == id)
  }

  /** The rules that have an active alert on the device. */
  function ActiveRuleIds(alerts: seq<Alert>, device: Id): (ids: set<Id>)
    ensures forall id :: id in ids <==>
              exists i :: 0 <= i < |alerts| && alerts[i].device == device && alerts[i].Active() && alerts[i].rule == id
  {
    set i | 0 <= i < |alerts| && alerts[i].device == device && alerts[i].Active() :: alerts[i].rule
  }

  predicate ActiveFor(a: Alert, rule: Id) {
    a.rule == rule && a.Active()
  }

  function ActiveCount(alerts: seq<Alert>, rule: Id): nat {
    if alerts == [] then 0
    else ActiveCount(Init(alerts), rule) + if ActiveFor(Last(alerts), rule) then 1 else 0
  }

  function RowCount(alerts: seq<Alert>, rule: Id): nat {
    if alerts == [] then 0
    else RowCount(Init(alerts), rule) + if Last(alerts).rule == rule then 1 else 0
  }

  // ---- Statements ----

  function NewAlert(d: RuleDecision, device: Id, at: Time): Alert {
    Alert(d.rule.id, device, d.value, d.rule.severity, Open, at, None, None, None, None)
  }

  function AutoResolved(a: Alert, at: Time): Alert {
    a.(status := Resolved, resolvedAt := Some(at))
  }

  function AutoResolveRule(alerts: seq<Alert>, rule: Id, at: Time): (r: seq<Alert>)
    ensures |r| == |alerts|
    ensures forall i :: 0 <= i < |r| ==>
              r[i] == if ActiveFor(alerts[i], rule) then AutoResolved(alerts[i], at) else alerts[i]
  {
    seq(|alerts|, i requires 0 <= i < |alerts| =>
      if ActiveFor(alerts[i], rule) then AutoResolved(alerts[i], at) else alerts[i])
  }

  /** The statement for one decision. */
  function ApplyOne(alerts: seq<Alert>, device: Id, d: RuleDecision, at: Time): seq<Alert> {
    match d.decision
    case CreateAlert => alerts + [NewAlert(d, device, at)]
    case AutoResolve => AutoResolveRule(alerts, d.rule.id, at)
  }

  /** The writes of the HTTP API, with the clock and the generated id as parameters. */
  datatype ApiCall =
    | Acknowledge(alert: nat, user: Id, at: Time)
    | ResolveAlert(alert: nat, user: Id, at: Time)
    | CreateRule(id: Id, row: RuleRow)
    | UpdateRule(id: Id, metric: string, operator: Operator, threshold: real, severity: string, enabled: bool)
    | DeleteRule(id: Id)

  function AcknowledgedBy(a: Alert, user: Id, at: Time): Alert {
    a.(status := Status.Acknowledged, ackAt := Some(at), ackBy := Some(user))
  }

  function ResolvedByUser(a: Alert, user: Id, at: Time): Alert {
    a.(status := Resolved, resolvedAt := Some(at), resolvedBy := Some(user))
  }

  predicate ChecksHold(operator: Operator, severity: string) {
    !operator.Unknown? && (severity == "warning" || severity == "critical")
  }

  /** The guarded update of a transition finds its row: open to acknowledge, active to resolve. */
  predicate GuardMatches(t: Tables, alert: nat, acknowledge: bool) {
    alert < |t.alerts| && if acknowledge then t.alerts[alert].status.Open? else t.alerts[alert].Active()
  }

  /** The statement of a call matches a row (or inserts one) and breaks no constraint. */
  predicate Succeeds(t: Tables, c: ApiCall) {
    match c
    case Acknowledge(i, user, _) => GuardMatches(t, i, true) && user in t.users
    case ResolveAlert(i, user, _) => GuardMatches(t, i, false) && user in t.users
    case CreateRule(id, row) => id !in t.owner && row.device in t.devices && ChecksHold(row.operator, row.severity)
    case UpdateRule(id, _, operator, _, severity, _) => id in t.rules && ChecksHold(operator, severity)
    case DeleteRule(id) => id in t.rules && forall i :: 0 <= i < |t.alerts| ==> t.alerts[i].rule != id
  }

  /** The tables after a call; a statement that matches nothing or is refused changes nothing. */
  function AfterCall(t: Tables, c: ApiCall): Tables {
    if !Succeeds(t, c) then t
    else match c
      case Acknowledge(i, user, at) => t.(alerts := t.alerts[i := AcknowledgedBy(t.alerts[i], user, at)])
      case ResolveAlert(i, user, at) => t.(alerts := t.alerts[i := ResolvedByUser(t.alerts[i], user, at)])
      case CreateRule(id, row) => t.(rules := t.rules[id := row], owner := t.owner[id := row.device])
      case UpdateRule(id, metric, operator, threshold, severity, enabled) =>
        t.(rules := t.rules[id := RuleRow(t.rules[id].device, metric, operator, threshold, severity, enabled)])
      case DeleteRule(id) => t.(rules := t.rules - {id})
  }

  // ---- The write loop ----

  /**
    * How the database answers one statement. `Unacknowledged` is an error reported for a statement that
    * did take effect, as when the connection breaks after the commit.
    */
  datatype Outcome = Committed | Rejected | Unacknowledged

  /** Where `applyDecisionsWithRetry` stands: the attempt under way and the decision it is about to write. */
  datatype Cursor = Running(attempt: nat, next: nat) | Finished(ok: bool)

  predicate ValidCursor(c: Cursor, len: nat) {
    c.Running? ==> 1 <= c.attempt <= MAX_ATTEMPTS && c.next < len
  }

  function StartCursor(len: nat): (c: Cursor)
    ensures ValidCursor(c, len)
  {
    if len == 0 then Finished(true) else Running(1, 0)
  }

  /** Success moves to the next decision; an error restarts the whole list or, on the last attempt, gives up. */
  function Advance(c: Cursor, len: nat, o: Outcome): (r: Cursor)
    requires ValidCursor(c, len) && c.Running?
    ensures ValidCursor(r, len)
  {
    if o.Committed? then
      if c.next + 1 == len then Finished(true) else Running(c.attempt, c.next + 1)
    else if c.attempt < MAX_ATTEMPTS then Running(c.attempt + 1, 0)
    else Finished(false)
  }

  datatype Progress = Progress(alerts: seq<Alert>, cursor: Cursor)

  function WriteOne(p: Progress, device: Id, at: Time, ds: seq<RuleDecision>, o: Outcome): (r: Progress)
    requires ValidCursor(p.cursor, |ds|)
    ensures ValidCursor(r.cursor, |ds|)
  {
    if p.cursor.Finished? then p
    else Progress(
      if o.Rejected? then p.alerts else ApplyOne(p.alerts, device, ds[p.cursor.next], at),
      Advance(p.cursor, |ds|, o))
  }

  /** The loop from its start, after the database has answered `outs`. */
  function RunWrites(alerts: seq<Alert>, device: Id, at: Time, ds: seq<RuleDecision>, outs: seq<Outcome>)
    : (r: Progress)
    ensures ValidCursor(r.cursor, |ds|)
  {
    if outs == [] then Progress(alerts, StartCursor(|ds|))
    else WriteOne(RunWrites(alerts, device, at, ds, Init(outs)), device, at, ds, Last(outs))
  }

  // ---- Transitions by people ----

  /**
    * What a known user can do with an alert, by its status: acknowledge it while it is open, resolve it until
    * it is resolved, and nothing else. Each sets its own time and user and no other row or column.
    */
  lemma {:induction false} PeopleMoveAlerts(t: Tables, i: nat, user: Id, at: Time)
    requires i < |t.alerts| && user in t.users
    ensures var row := t.alerts[i];
            var acked := row.(status := Status.Acknowledged, ackAt := Some(at), ackBy := Some(user));
            AfterCall(t, Acknowledge(i, user, at)) ==
            match row.status
            case Open => t.(alerts := t.alerts[i := acked])
            case Acknowledged => t
            case Resolved => t
    ensures var row := t.alerts[i];
            var closed := row.(status := Resolved, resolvedAt := Some(at), resolvedBy := Some(user));
            AfterCall(t, ResolveAlert(i, user, at)) ==
            match row.status
            case Open => t.(alerts := t.alerts[i := closed])
            case Acknowledged => t.(alerts := t.alerts[i := closed])
            case Resolved => t
  {
  }

  // ---- Counting active alerts ----

  lemma {:induction false} ActiveRowCounts(alerts: seq<Alert>, rule: Id, i: nat)
    requires i < |alerts| && ActiveFor(alerts[i], rule)
    ensures ActiveCount(alerts, rule) > 0
  {
    if i < |alerts| - 1 { ActiveRowCounts(Init(alerts), rule, i); }
  }

  lemma {:induction false} FindActiveRow(alerts: seq<Alert>, rule: Id) returns (i: nat)
    requires ActiveCount(alerts, rule) > 0
    ensures i < |alerts| && ActiveFor(alerts[i], rule)
  {
    if ActiveFor(Last(alerts), rule) {
      i := |alerts| - 1;
    } else {
      i := FindActiveRow(Init(alerts), rule);
    }
  }

  predicate Unresolved(a: Alert, rule: Id) {
    a.rule == rule && (a.status.Open? || a.status.Acknowledged?)
  }

  function UnresolvedRows(alerts: seq<Alert>, rule: Id): set<nat> {
    set i: nat | i < |alerts| && Unresolved(alerts[i], rule)
  }

  /** "Active" is "open or acknowledged", counted row by row. */
  lemma {:induction false} ActiveCountIsRows(alerts: seq<Alert>, rule: Id)
    ensures ActiveCount(alerts, rule) == |UnresolvedRows(alerts, rule)|
  {
    if alerts == [] {
      assert UnresolvedRows(alerts, rule) == {};
    } else {
      hide UnresolvedRows;
      ActiveCountIsRows(Init(alerts), rule);
      OneMoreRow(alerts, rule);
    }
  }

  lemma OneMoreRow(alerts: seq<Alert>, rule: Id)
    requires alerts != []
    ensures |UnresolvedRows(alerts, rule)| ==
            |UnresolvedRows(Init(alerts), rule)| + if ActiveFor(Last(alerts), rule) then 1 else 0
  {
    assert ActiveFor(Last(alerts), rule) == Unresolved(Last(alerts), rule);
    hide ActiveFor, Unresolved;
    var rest, last := UnresolvedRows(Init(alerts), rule), |alerts| - 1;
    assert forall i :: 0 <= i < last ==> Init(alerts)[i] == alerts[i];
    if ActiveFor(Last(alerts), rule) {
      assert UnresolvedRows(alerts, rule) == rest + {last};
    } else {
      assert UnresolvedRows(alerts, rule) == rest;
    }
  }

  lemma ActiveCountAppend(alerts: seq<Alert>, a: Alert, rule: Id)
    ensures ActiveCount(alerts + [a], rule) == ActiveCount(alerts, rule) + if ActiveFor(a, rule) then 1 else 0
  {
    assert Init(alerts + [a]) == alerts;
  }

  lemma {:induction false} ActiveCountUpdate(alerts: seq<Alert>, i: nat, a: Alert, rule: Id)
    requires i < |alerts|
    ensures ActiveCount(alerts[i := a], rule) ==
            ActiveCount(alerts, rule) - (if ActiveFor(alerts[i], rule) then 1 else 0)
            + if ActiveFor(a, rule) then 1 else 0
  {
    var updated := alerts[i := a];
    if i == |alerts| - 1 {
      assert Init(updated) == Init(alerts);
    } else {
      assert Init(updated) == Init(alerts)[i := a];
      ActiveCountUpdate(Init(alerts), i, a, rule);
    }
  }

  /** Auto-resolving a rule leaves it no active alert, however many it had, and touches no other rule. */
  lemma {:induction false} ActiveCountAutoResolve(alerts: seq<Alert>, resolved: Id, at: Time, rule: Id)
    ensures ActiveCount(AutoResolveRule(alerts, resolved, at), rule) ==
            if rule == resolved then 0 else ActiveCount(alerts, rule)
  {
    if alerts != [] {
      ActiveCountAutoResolve(Init(alerts), resolved, at, rule);
      assert Init(AutoResolveRule(alerts, resolved, at)) == AutoResolveRule(Init(alerts), resolved, at);
    }
  }

  lemma ActiveCountApplyOne(alerts: seq<Alert>, device: Id, d: RuleDecision, at: Time, rule: Id)
    ensures ActiveCount(ApplyOne(alerts, device, d, at), rule) ==
            if d.rule.id != rule then ActiveCount(alerts, rule)
            else if d.decision.CreateAlert? then ActiveCount(alerts, rule) + 1
            else 0
  {
    if d.decision.CreateAlert? {
      ActiveCountAppend(alerts, NewAlert(d, device, at), rule);
    } else {
      ActiveCountAutoResolve(alerts, d.rule.id, at, rule);
    }
  }

  /** In a consistent table, the active-rule query sees a rule of the device exactly when it has an active alert. */
  lemma {:induction false} SnapshotIsActivity(t: Tables, device: Id, rule: Id)
    requires Consistent(t) && rule in t.owner && t.owner[rule] == device
    ensures rule in ActiveRuleIds(t.alerts, device) <==> ActiveCount(t.alerts, rule) > 0
  {
    if rule in ActiveRuleIds(t.alerts, device) {
      var i :| 0 <= i < |t.alerts| && t.alerts[i].device == device && t.alerts[i].Active() && t.alerts[i].rule == rule;
      ActiveRowCounts(t.alerts, rule, i);
    }
    if ActiveCount(t.alerts, rule) > 0 {
      var i := FindActiveRow(t.alerts, rule);
      assert t.alerts[i].device == device;
    }
  }

  lemma {:induction false} RowCountAutoResolve(alerts: seq<Alert>, resolved: Id, at: Time, rule: Id)
    ensures RowCount(AutoResolveRule(alerts, resolved, at), rule) == RowCount(alerts, rule)
  {
    if alerts != [] {
      RowCountAutoResolve(Init(alerts), resolved, at, rule);
      assert Init(AutoResolveRule(alerts, resolved, at)) == AutoResolveRule(Init(alerts), resolved, at);
    }
  }

  lemma RowCountApplyOne(alerts: seq<Alert>, device: Id, d: RuleDecision, at: Time, rule: Id)
    ensures RowCount(ApplyOne(alerts, device, d, at), rule) ==
            RowCount(alerts, rule) + if d.decision.CreateAlert? && d.rule.id == rule then 1 else 0
  {
    if d.decision.CreateAlert? {
      assert Init(alerts + [NewAlert(d, device, at)]) == alerts;
    } else {
      RowCountAutoResolve(alerts, d.rule.id, at, rule);
    }
  }

  // ---- Consistency is kept ----

  /** The decision's rule exists and belongs to the device. */
  predicate OnDevice(t: Tables, device: Id, d: RuleDecision) {
    d.rule.id in t.rules && t.rules[d.rule.id].device == device
  }

  lemma ConsistentApplyOne(t: Tables, device: Id, d: RuleDecision, at: Time)
    requires Consistent(t) && OnDevice(t, device, d)
    ensures Consistent(t.(alerts := ApplyOne(t.alerts, device, d, at)))
  {
  }

  lemma {:induction false} ConsistentWrites(t: Tables, device: Id, at: Time, ds: seq<RuleDecision>, outs: seq<Outcome>)
    requires Consistent(t) && forall j :: 0 <= j < |ds| ==> OnDevice(t, device, ds[j])
    ensures Consistent(t.(alerts := RunWrites(t.alerts, device, at, ds, outs).alerts))
  {
    if outs != [] {
      ConsistentWrites(t, device, at, ds, Init(outs));
      var p := RunWrites(t.alerts, device, at, ds, Init(outs));
      if p.cursor.Running? {
        ConsistentApplyOne(t.(alerts := p.alerts), device, ds[p.cursor.next], at);
      }
    }
  }

  lemma {:induction false} ConsistentCall(t: Tables, c: ApiCall)
    requires Consistent(t)
    ensures Consistent(AfterCall(t, c))
    ensures forall id :: id in t.owner ==> id in AfterCall(t, c).owner && AfterCall(t, c).owner[id] == t.owner[id]
  {
  }
}
