/** `process` run to its end, message after message, on the real tables; each rule's view of such a run. */
module SerialRuns {
  import opened AlertTypes
  import opened AlertTable
  import opened RuleEngine
  import opened Retry
  import opened Hysteresis

  datatype World = World(db: Tables, streaks: map<Id, BreachState>)

  /** The database's part in one message: the rules query, the active query and the answers to the writes. */
  datatype Script = Script(rules: Option<seq<Rule>>, activeOk: bool, outs: seq<Outcome>)

  datatype Event = Telemetry(m: Message, script: Script) | Api(call: ApiCall) | Restart

  /** Both queries succeeded and there were rules, so the tracker is consulted. */
  predicate Consults(script: Script) {
    script.rules.Some? && script.rules.value != [] && script.activeOk
  }

  function EvaluationOf(w: World, m: Message, script: Script, n: nat): Evaluation
    requires Consults(script)
  {
    EvaluateAll(script.rules.value, m.readings, ActiveRuleIds(w.db.alerts, m.device), w.streaks, n)
  }

  /** One message, from the rules query to the last write. */
  function Process(w: World, m: Message, script: Script, n: nat): World {
    if !Consults(script) then w
    else
      var e := EvaluationOf(w, m, script, n);
      World(w.db.(alerts := RunWrites(w.db.alerts, m.device, m.at, e.decisions, script.outs).alerts), e.streaks)
  }

  function After(w: World, ev: Event, n: nat): World {
    match ev
    case Telemetry(m, script) => Process(w, m, script, n)
    case Api(call) => w.(db := AfterCall(w.db, call))
    case Restart => w.(streaks := map[])
  }

  /** The script is one the database can play: the right rules, and writes that went on to their end. */
  ghost predicate Possible(w: World, ev: Event, n: nat) {
    ev.Telemetry? ==>
      && (ev.script.rules.Some? ==> ListsEnabledRules(w.db, ev.m.device, ev.script.rules.value))
      && (Consults(ev.script) ==>
            CursorAfter(|EvaluationOf(w, ev.m, ev.script, n).decisions|, ev.script.outs).Finished?)
  }

  function RunAll(w: World, evs: seq<Event>, n: nat): World {
    if evs == [] then w else After(RunAll(w, Init(evs), n), Last(evs), n)
  }

  ghost predicate PossibleRun(w: World, evs: seq<Event>, n: nat) {
    evs != [] ==> PossibleRun(w, Init(evs), n) && Possible(RunAll(w, Init(evs), n), Last(evs), n)
  }

  lemma ConsistentNext(w: World, ev: Event, n: nat)
    requires Consistent(w.db) && Possible(w, ev, n)
    ensures Consistent(After(w, ev, n).db)
    ensures forall id :: id in w.db.owner ==>
              id in After(w, ev, n).db.owner && After(w, ev, n).db.owner[id] == w.db.owner[id]
  {
    match ev
    case Telemetry(m, script) =>
      if Consults(script) {
        var rules := script.rules.value;
        var ds := EvaluationOf(w, m, script, n).decisions;
        DecisionsAreListed(rules, m.readings, ActiveRuleIds(w.db.alerts, m.device), w.streaks, n);
        forall j | 0 <= j < |ds| ensures OnDevice(w.db, m.device, ds[j]) {
          assert ds[j] in ds;
        }
        ConsistentWrites(w.db, m.device, m.at, ds, script.outs);
      }
    case Api(call) => ConsistentCall(w.db, call);
    case Restart =>
  }

  lemma {:induction false} ConsistentRun(w: World, evs: seq<Event>, n: nat)
    requires Consistent(w.db) && PossibleRun(w, evs, n)
    ensures Consistent(RunAll(w, evs, n).db)
    ensures forall id :: id in w.db.owner ==>
              id in RunAll(w, evs, n).db.owner && RunAll(w, evs, n).db.owner[id] == w.db.owner[id]
  {
    if evs != [] {
      ConsistentRun(w, Init(evs), n);
      ConsistentNext(RunAll(w, Init(evs), n), Last(evs), n);
    }
  }

  // ---- One rule's view ----

  function View(w: World, rule: Id): Engine {
    Engine(StreakOf(w.streaks, rule), ActiveCount(w.db.alerts, rule) > 0)
  }

  /** The reading of the rule that an event evaluates, if it evaluates one. */
  function ReadingOf(ev: Event, rule: Id): Option<bool> {
    if ev.Telemetry? && Consults(ev.script) then OwnReading(ev.script.rules.value, ev.m.readings, rule) else None
  }

  /** The decision for the rule that an event takes, if it takes one. */
  function DecisionOf(w: World, ev: Event, rule: Id, n: nat): Option<Decision> {
    if ev.Telemetry? && Consults(ev.script) then DecisionFor(EvaluationOf(w, ev.m, ev.script, n).decisions, rule)
    else None
  }

  /** A person resolves an alert of the rule. */
  predicate HumanResolve(w: World, ev: Event, rule: Id) {
    ev.Api? && ev.call.ResolveAlert? && Succeeds(w.db, ev.call) && w.db.alerts[ev.call.alert].rule == rule
  }

  /** The event's decision for the rule left the rule's activity as it was. */
  predicate LosesDecision(w: World, ev: Event, rule: Id, n: nat) {
    DecisionOf(w, ev, rule, n).Some? && View(After(w, ev, n), rule).active == View(w, rule).active
  }

  function SignalOf(w: World, ev: Event, rule: Id, n: nat): Option<Signal> {
    if ReadingOf(ev, rule).Some? then Some(Reading(ReadingOf(ev, rule).value, LosesDecision(w, ev, rule, n)))
    else if HumanResolve(w, ev, rule) then Some(Resolve(View(After(w, ev, n), rule).active))
    else if ev.Restart? then Some(Reset)
    else None
  }

  function Signals(w: World, evs: seq<Event>, rule: Id, n: nat): seq<Signal> {
    if evs == [] then []
    else
      var s := SignalOf(RunAll(w, Init(evs), n), Last(evs), rule, n);
      Signals(w, Init(evs), rule, n) + if s.Some? then [s.value] else []
  }

  lemma {:induction false} FindOwnRule(rules: seq<Rule>, readings: map<string, real>, id: Id) returns (i: nat)
    ensures OwnReading(rules, readings, id).Some? ==>
              && i < |rules| && rules[i].id == id && Evaluated(rules[i], readings)
              && OwnReading(rules, readings, id).value == Triggered(rules[i], readings)
    ensures OwnReading(rules, readings, id).None? ==>
              forall k :: 0 <= k < |rules| ==> rules[k].id != id || !Evaluated(rules[k], readings)
  {
    if rules == [] {
      i := 0;
    } else if Last(rules).id == id && Evaluated(Last(rules), readings) {
      i := |rules| - 1;
    } else {
      i := FindOwnRule(Init(rules), readings, id);
    }
  }

  /** What an event's evaluation does to the rule: it observes the reading and asks as the rule's engine would. */
  lemma EvaluationMatchesView(w: World, m: Message, script: Script, rule: Id, n: nat)
    requires Consistent(w.db) && Possible(w, Telemetry(m, script), n) && Consults(script) && rule in w.db.owner
    ensures var x := OwnReading(script.rules.value, m.readings, rule);
            var e := EvaluationOf(w, m, script, n);
            && DecisionFor(e.decisions, rule) == (if x.Some? then Asks(View(w, rule), x.value, n) else None)
            && StreakOf(e.streaks, rule) ==
               (if x.Some? then Observe(StreakOf(w.streaks, rule), x.value) else StreakOf(w.streaks, rule))
  {
    var rules := script.rules.value;
    var active := ActiveRuleIds(w.db.alerts, m.device);
    var i := FindOwnRule(rules, m.readings, rule);
    if OwnReading(rules, m.readings, rule).Some? {
      assert EnabledRule(w.db, m.device, rules[i]);
      EvaluationOfRule(rules, m.readings, active, w.streaks, n, i);
      SnapshotIsActivity(w.db, m.device, rule);
    } else {
      UnlistedUntouched(rules, m.readings, active, w.streaks, n, rule);
      UnevaluatedUndecided(rules, m.readings, active, w.streaks, n, rule);
    }
  }

  lemma {:induction false} UnevaluatedUndecided(
    rules: seq<Rule>, readings: map<string, real>, active: set<Id>, streaks: map<Id, BreachState>, n: nat, id: Id)
    requires forall i :: 0 <= i < |rules| ==> rules[i].id != id || !Evaluated(rules[i], readings)
    ensures DecisionFor(EvaluateAll(rules, readings, active, streaks, n).decisions, id) == None
  {
    if rules != [] {
      UnevaluatedUndecided(Init(rules), readings, active, streaks, n, id);
      var before := EvaluateAll(Init(rules), readings, active, streaks, n);
      if Last(rules).id != id {
        EvaluateOneKeepsOthers(Last(rules), readings, active, before, n, id);
      }
    }
  }

  /** How the writes move a rule: only a decision can, and only to the side it decided for. */
  lemma {:induction false} WritesMoveView(w: World, m: Message, script: Script, rule: Id, n: nat)
    requires Consistent(w.db) && Possible(w, Telemetry(m, script), n) && Consults(script) && rule in w.db.owner
    ensures var d := DecisionOf(w, Telemetry(m, script), rule, n);
            var after := View(Process(w, m, script, n), rule).active;
            && (d.None? ==> after == View(w, rule).active)
            && (d.Some? && AllCommitted(script.outs) ==> after == d.value.CreateAlert?)
            && (d.Some? ==> View(w, rule).active != d.value.CreateAlert?)
  {
    var ds := EvaluationOf(w, m, script, n).decisions;
    EvaluationMatchesView(w, m, script, rule, n);
    DecisionsAreDistinct(script.rules.value, m.readings, ActiveRuleIds(w.db.alerts, m.device), w.streaks, n);
    var i := IndexFor(ds, rule);
    if DecisionFor(ds, rule).None? {
      EffectOnOtherRule(w.db.alerts, m.device, m.at, ds, script.outs, rule);
    } else {
      EffectOnListedRule(w.db.alerts, m.device, m.at, ds, script.outs, i);
      if AllCommitted(script.outs) {
        CommittedHitsOnce(|ds|, script.outs, i);
      }
    }
  }

  lemma ViewFollowsMessage(w: World, m: Message, script: Script, rule: Id, n: nat)
    requires Consistent(w.db) && Possible(w, Telemetry(m, script), n) && Consults(script) && rule in w.db.owner
    ensures var s := SignalOf(w, Telemetry(m, script), rule, n);
            View(Process(w, m, script, n), rule) == if s.Some? then Respond(View(w, rule), s.value, n) else View(w, rule)
  {
    EvaluationMatchesView(w, m, script, rule, n);
    WritesMoveView(w, m, script, rule, n);
  }

  /** A call changes a rule's activity only by resolving one of its active alerts. */
  lemma CallMovesActivity(db: Tables, call: ApiCall, rule: Id)
    ensures var resolves := call.ResolveAlert? && Succeeds(db, call) && db.alerts[call.alert].rule == rule;
            && (resolves ==> ActiveCount(db.alerts, rule) > 0)
            && (!resolves ==> ActiveCount(AfterCall(db, call).alerts, rule) == ActiveCount(db.alerts, rule))
  {
    hide ActiveCount, ChecksHold;
    if (call.Acknowledge? || call.ResolveAlert?) && Succeeds(db, call) {
      var a, after := db.alerts[call.alert], AfterCall(db, call).alerts;
      assert after == db.alerts[call.alert := after[call.alert]];
      ActiveCountUpdate(db.alerts, call.alert, after[call.alert], rule);
      if ActiveFor(a, rule) { ActiveRowCounts(db.alerts, rule, call.alert); }
    }
  }

  lemma ViewFollowsCall(w: World, call: ApiCall, rule: Id, n: nat)
    ensures var s := SignalOf(w, Api(call), rule, n);
            View(After(w, Api(call), n), rule) == if s.Some? then Respond(View(w, rule), s.value, n) else View(w, rule)
  {
    hide ActiveCount, AfterCall, Succeeds;
    CallMovesActivity(w.db, call, rule);
  }

  /** Each event moves the rule's view exactly as its signal moves the rule's engine. */
  lemma ViewFollowsSignal(w: World, ev: Event, rule: Id, n: nat)
    requires Consistent(w.db) && Possible(w, ev, n) && rule in w.db.owner
    ensures var s := SignalOf(w, ev, rule, n);
            View(After(w, ev, n), rule) == if s.Some? then Respond(View(w, rule), s.value, n) else View(w, rule)
  {
    match ev
    case Telemetry(m, script) =>
      if Consults(script) { ViewFollowsMessage(w, m, script, rule, n); }
    case Api(call) => ViewFollowsCall(w, call, rule, n);
    case Restart =>
  }

  /** The tables-and-streaks run, seen by one rule, is the run of that rule's engine over its signals. */
  lemma {:induction false} ViewFollowsRun(w: World, evs: seq<Event>, rule: Id, n: nat)
    requires Consistent(w.db) && PossibleRun(w, evs, n) && rule in w.db.owner
    ensures View(RunAll(w, evs, n), rule) == Run(View(w, rule), Signals(w, evs, rule, n), n)
  {
    if evs != [] {
      ViewFollowsRun(w, Init(evs), rule, n);
      ConsistentRun(w, Init(evs), n);
      var before := RunAll(w, Init(evs), n);
      ViewFollowsSignal(before, Last(evs), rule, n);
      if SignalOf(before, Last(evs), rule, n).Some? {
        assert Init(Signals(w, evs, rule, n)) == Signals(w, Init(evs), rule, n);
      } else {
        assert Signals(w, evs, rule, n) == Signals(w, Init(evs), rule, n);
      }
    }
  }

  /** The evaluated readings of a rule in a run. */
  function Readings(evs: seq<Event>, rule: Id): seq<bool> {
    if evs == [] then []
    else
      var x := ReadingOf(Last(evs), rule);
      Readings(Init(evs), rule) + if x.Some? then [x.value] else []
  }

  /** No failed write, no restart. */
  predicate Faultless(ev: Event) {
    (ev.Telemetry? ==> AllCommitted(ev.script.outs)) && !ev.Restart?
  }

  /** A faultless run in which no person resolves an alert of the rule. */
  predicate Undisturbed(w: World, evs: seq<Event>, rule: Id, n: nat) {
    evs != [] ==>
      && Undisturbed(w, Init(evs), rule, n)
      && Faultless(Last(evs))
      && !HumanResolve(RunAll(w, Init(evs), n), Last(evs), rule)
  }

  lemma {:induction false} UndisturbedIsClean(w: World, evs: seq<Event>, rule: Id, n: nat)
    requires Consistent(w.db) && PossibleRun(w, evs, n) && rule in w.db.owner && Undisturbed(w, evs, rule, n)
    ensures Clean(Signals(w, evs, rule, n)) && Triggers(Signals(w, evs, rule, n)) == Readings(evs, rule)
  {
    hide Consistent, Possible, View, EvaluateAll, ActiveCount, RunWrites, AfterCall, Asks, Process;
    if evs != [] {
      UndisturbedIsClean(w, Init(evs), rule, n);
      ConsistentRun(w, Init(evs), n);
      var before := RunAll(w, Init(evs), n);
      var ev := Last(evs);
      var s := SignalOf(before, ev, rule, n);
      if s.Some? {
        WritesMoveView(before, ev.m, ev.script, rule, n);
        EvaluationMatchesView(before, ev.m, ev.script, rule, n);
        assert Init(Signals(w, evs, rule, n)) == Signals(w, Init(evs), rule, n);
      } else {
        assert Signals(w, evs, rule, n) == Signals(w, Init(evs), rule, n);
      }
    }
  }

  /** In an undisturbed run the rule's view is the debounced engine over its readings. */
  lemma UndisturbedFollows(w: World, evs: seq<Event>, rule: Id, n: nat)
    requires Consistent(w.db) && PossibleRun(w, evs, n) && rule in w.db.owner && Undisturbed(w, evs, rule, n)
    ensures View(RunAll(w, evs, n), rule) == Follow(View(w, rule), Readings(evs, rule), n)
  {
    ViewFollowsRun(w, evs, rule, n);
    UndisturbedIsClean(w, evs, rule, n);
    CleanRunFollows(View(w, rule), Signals(w, evs, rule, n), n);
  }
}
