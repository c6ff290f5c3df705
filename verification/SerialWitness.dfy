/** Serial runs from empty tables that show what the engine does not promise. */
module SerialWitness {
  import opened AlertTypes
  import opened AlertTable
  import opened RuleEngine
  import opened Hysteresis
  import opened Retry
  import opened SerialRuns
  import opened SerialTheorems

  const DEVICE: Id := "d"
  const LOOSE := Rule("a", "m", Gt, 0.0, "warning")
  const STRICT := Rule("b", "m", Gt, 10.0, "critical")

  function RowOf(r: Rule): RuleRow {
    RuleRow(DEVICE, r.metric, r.operator, r.threshold, r.severity, true)
  }

  // ---- A restart that is never made up for ----

  /** One device with one rule. */
  const ONE_RULE := Tables({DEVICE}, {}, map[LOOSE.id := RowOf(LOOSE)], map[LOOSE.id := DEVICE], [])

  /** A message that breaches the rule or clears it, with a database that answers and commits. */
  function Reads(x: bool): Event {
    Telemetry(Message(DEVICE, map["m" := if x then 1.0 else -1.0], 0), Script(Some([LOOSE]), true, [Committed]))
  }

  function AllRead(xs: seq<bool>): (evs: seq<Event>)
    ensures |evs| == |xs|
  {
    seq(|xs|, i requires 0 <= i < |xs| => Reads(xs[i]))
  }

  lemma ReadsIsPossible(w: World, x: bool, n: nat)
    requires w.db.(alerts := []) == ONE_RULE
    ensures Possible(w, Reads(x), n) && Faultless(Reads(x)) && ReadingOf(Reads(x), LOOSE.id) == Some(x)
    ensures After(w, Reads(x), n).db.(alerts := []) == ONE_RULE && Reads(x).Telemetry?
  {
    var ev := Reads(x);
    var active := ActiveRuleIds(w.db.alerts, DEVICE);
    assert [LOOSE][0].id in w.db.rules;
    assert Init([LOOSE]) == [] && Init([Committed]) == [];
    var e := EvaluateOne(LOOSE, ev.m.readings, active, Evaluation([], w.streaks), n);
    assert EvaluateAll([], ev.m.readings, active, w.streaks, n) == Evaluation([], w.streaks);
    assert EvaluateAll([LOOSE], ev.m.readings, active, w.streaks, n) == e && |e.decisions| <= 1;
  }

  /** Any readings can be played against the one rule, in any state of its alerts and streak. */
  lemma {:induction false} AllReadIsPossible(w: World, xs: seq<bool>, n: nat)
    requires w.db.(alerts := []) == ONE_RULE
    ensures var evs := AllRead(xs);
            && PossibleRun(w, evs, n) && Undisturbed(w, evs, LOOSE.id, n)
            && Readings(evs, LOOSE.id) == xs
            && RunAll(w, evs, n).db.(alerts := []) == ONE_RULE
  {
    hide Reads, Possible, ReadingOf, After, ONE_RULE;
    if xs != [] {
      assert Init(AllRead(xs)) == AllRead(Init(xs)) && Last(AllRead(xs)) == Reads(Last(xs));
      AllReadIsPossible(w, Init(xs), n);
      ReadsIsPossible(RunAll(w, AllRead(Init(xs)), n), Last(xs), n);
    }
  }

  function Breaches(k: nat): seq<bool> {
    seq(k, _ => true)
  }

  lemma {:induction false} BreachesArm(k: nat, n: nat)
    requires 1 <= k < n
    ensures Follow(Engine(NO_STREAK, false), Breaches(k), n) == Engine(BreachState(k, true), false)
  {
    assert Init(Breaches(k)) == Breaches(k - 1) && Last(Breaches(k));
    if k > 1 { BreachesArm(k - 1, n); }
  }

  lemma ActiveIsFollowed(w: World, xs: seq<bool>, n: nat)
    requires Consistent(w.db) && w.db.(alerts := []) == ONE_RULE
    ensures RuleActive(RunAll(w, AllRead(xs), n), LOOSE.id) == Follow(View(w, LOOSE.id), xs, n).active
  {
    AllReadIsPossible(w, xs, n);
    hide RunAll, PossibleRun, Undisturbed, Readings, Follow, Consistent, AllRead, ActiveCount;
    UndisturbedFollows(w, AllRead(xs), LOOSE.id, n);
  }

  /** The service one breaching reading short of an alert. */
  function Armed(n: nat): World
    requires n >= 2
  {
    RunAll(World(ONE_RULE, map[]), AllRead(Breaches(n - 1)), n)
  }

  lemma ArmedView(n: nat)
    requires n >= 2
    ensures var w := Armed(n);
            && PossibleRun(World(ONE_RULE, map[]), AllRead(Breaches(n - 1)), n)
            && w.db.(alerts := []) == ONE_RULE && Consistent(w.db)
            && View(w, LOOSE.id) == Engine(BreachState(n - 1, true), false)
  {
    var start, xs := World(ONE_RULE, map[]), Breaches(n - 1);
    AllReadIsPossible(start, xs, n);
    ConsistentRun(start, AllRead(xs), n);
    UndisturbedFollows(start, AllRead(xs), LOOSE.id, n);
    BreachesArm(n - 1, n);
  }

  /**
    * On rows of alerts: for every debounce above one and every length there is a run from empty tables, a
    * restart after its first n - 1 readings, and readings over which the restarted service has no active
    * alert while the one that was not restarted has one throughout.
    */
  lemma {:induction false} RestartMissesAlertForever(n: nat, len: nat)
    requires n >= 2 && len >= 1
    ensures var w := Armed(n);
            var evs := AllRead(Alternating(len));
            && PossibleRun(World(ONE_RULE, map[]), AllRead(Breaches(n - 1)), n)
            && PossibleRun(w, evs, n) && PossibleRun(After(w, Restart, n), evs, n)
            && RuleActive(RunAll(w, evs, n), LOOSE.id)
            && !RuleActive(RunAll(After(w, Restart, n), evs, n), LOOSE.id)
  {
    var w := Armed(n);
    var restarted := After(w, Restart, n);
    var xs := Alternating(len);
    ArmedView(n);
    assert View(restarted, LOOSE.id) == Respond(View(w, LOOSE.id), Reset, n) && restarted.db == w.db;
    hide *;
    AllReadIsPossible(w, xs, n);
    AllReadIsPossible(restarted, xs, n);
    ActiveIsFollowed(w, xs, n);
    ActiveIsFollowed(restarted, xs, n);
    RestartCanMissForever(n, len);
  }

  // ---- The stricter rule ahead while a message is being written ----

  /** One device with a pair of rules on one metric, and no alerts. */
  const TWO_RULES := Tables(
    {DEVICE}, {},
    map[LOOSE.id := RowOf(LOOSE), STRICT.id := RowOf(STRICT)], map[LOOSE.id := DEVICE, STRICT.id := DEVICE], [])

  const HIGH := Message(DEVICE, map["m" := 20.0], 0)
  const LOW := Message(DEVICE, map["m" := -1.0], 1)
  const START := World(TWO_RULES, map[])

  /** The query may list the rules in either order. */
  function Listing(rules: seq<Rule>): Script {
    Script(Some(rules), true, [Committed, Committed])
  }

  const RAISED := Process(START, HIGH, Listing([STRICT, LOOSE]), 1)

  function Half(w: World, m: Message, script: Script): seq<Alert>
    requires Consults(script)
  {
    RunWrites(w.db.alerts, m.device, m.at, EvaluationOf(w, m, script, 1).decisions, [Committed]).alerts
  }

  lemma TwoDecisions(first: Rule, second: Rule, m: Message, active: set<Id>, d: Decision, streaks: map<Id, BreachState>)
    requires {first, second} == {LOOSE, STRICT} && first != second
    requires (m == HIGH && d.CreateAlert? && active == {}) || (m == LOW && d.AutoResolve? && active == {LOOSE.id, STRICT.id})
    ensures EvaluateAll([first, second], m.readings, active, streaks, 1).decisions ==
            [RuleDecision(first, d, m.readings["m"]), RuleDecision(second, d, m.readings["m"])]
  {
    UndebouncedTable([first, second], m.readings, active, streaks);
    assert Init([first, second]) == [first] && Init([first]) == [];
    assert first in {LOOSE, STRICT} && second in {LOOSE, STRICT};
    var d1, d2 := RuleDecision(first, d, m.readings["m"]), RuleDecision(second, d, m.readings["m"]);
    assert Evaluated(first, m.readings) && Evaluated(second, m.readings);
    assert TableDecisions([first], m.readings, active) == [d1];
    assert TableDecisions([first, second], m.readings, active) == [d1] + [d2];
  }

  lemma PairIsListed(alerts: seq<Alert>, first: Rule, second: Rule)
    requires {first, second} == {LOOSE, STRICT} && first != second
    ensures ListsEnabledRules(TWO_RULES.(alerts := alerts), DEVICE, [first, second])
    ensures SeverityPair(TWO_RULES.(alerts := alerts), LOOSE.id, STRICT.id)
  {
    assert first in {LOOSE, STRICT} && second in {LOOSE, STRICT} && {LOOSE, STRICT} == {first, second};
    assert [first, second][0] == first && [first, second][1] == second;
    assert LOOSE in {first, second} && STRICT in {first, second};
  }

  lemma TwoCommits()
    ensures CursorAfter(2, [Committed]) == Running(1, 1) && CursorAfter(2, [Committed, Committed]) == Finished(true)
  {
    assert Init([Committed, Committed]) == [Committed] && Init([Committed]) == [];
  }

  /** The decision of the wrong rule first: after one commit, the list is half written. */
  lemma HalfAfterOne(first: Rule, second: Rule, d: Decision, value: real)
    requires [first, second] == if d.CreateAlert? then [STRICT, LOOSE] else [LOOSE, STRICT]
    ensures HalfWritten([RuleDecision(first, d, value), RuleDecision(second, d, value)], [Committed], STRICT.id, LOOSE.id)
  {
    var ds := [RuleDecision(first, d, value), RuleDecision(second, d, value)];
    assert [first, second][0] == first && [first, second][1] == second;
    assert [STRICT, LOOSE][0] == STRICT && [LOOSE, STRICT][0] == LOOSE;
    assert Init(ds) == [ds[0]] && Init([ds[0]]) == [];
    assert IndexFor(ds, first.id) == 0 && IndexFor(ds, second.id) == 1;
    TwoCommits();
    CommittedHitsOnce(2, [Committed], 0);
    CommittedHitsOnce(2, [Committed], 1);
  }

  const CREATES := [RuleDecision(STRICT, CreateAlert, 20.0), RuleDecision(LOOSE, CreateAlert, 20.0)]

  /** A high reading on empty tables, with the stricter rule listed first. */
  lemma AsksForBoth()
    ensures var script := Listing([STRICT, LOOSE]);
            && Consults(script) && EvaluationOf(START, HIGH, script, 1).decisions == CREATES
            && Possible(START, Telemetry(HIGH, script), 1)
    ensures SeverityPair(START.db, LOOSE.id, STRICT.id)
  {
    assert ActiveRuleIds([], DEVICE) == {} && START.db == TWO_RULES.(alerts := []);
    PairIsListed([], STRICT, LOOSE);
    hide ListsEnabledRules, SeverityPair, EvaluateAll, ActiveRuleIds, TWO_RULES;
    TwoDecisions(STRICT, LOOSE, HIGH, {}, CreateAlert, map[]);
    TwoCommits();
  }

  /** Both alerts asked for, the stricter one's insert first: after it, the stricter rule is active alone. */
  lemma {:induction false} StrictAheadWhileCreating()
    ensures var script := Listing([STRICT, LOOSE]);
            && Possible(START, Telemetry(HIGH, script), 1) && SeverityPair(START.db, LOOSE.id, STRICT.id)
            && ActiveAlone(Half(START, HIGH, script), STRICT.id, LOOSE.id)
  {
    AsksForBoth();
    HalfAfterOne(STRICT, LOOSE, CreateAlert, 20.0);
    assert Consistent(START.db) && Dominates(View(START, LOOSE.id), View(START, STRICT.id));
    hide HalfWritten, EvaluateAll, RunWrites, SeverityPair, Possible, ActiveRuleIds, Consistent, ActiveCount, START;
    SeverityWithinMessage(START, HIGH, Listing([STRICT, LOOSE]), [Committed], LOOSE.id, STRICT.id, 1);
  }

  lemma RowsAreActive(a: Alert, b: Alert)
    requires a.Active() && b.Active() && a.device == b.device == DEVICE
    ensures ActiveRuleIds([a, b], DEVICE) == {b.rule, a.rule}
  {
    var ids := ActiveRuleIds([a, b], DEVICE);
    assert [a, b][0].rule == a.rule && [a, b][1].rule == b.rule;
    assert a.rule in ids && b.rule in ids;
  }

  /** The two alerts as that message leaves them, once both inserts have committed. */
  lemma BothRaised()
    ensures RAISED.db == TWO_RULES.(alerts := [NewAlert(RuleDecision(STRICT, CreateAlert, 20.0), DEVICE, 0),
                                               NewAlert(RuleDecision(LOOSE, CreateAlert, 20.0), DEVICE, 0)])
    ensures Consistent(RAISED.db) && ActiveRuleIds(RAISED.db.alerts, DEVICE) == {LOOSE.id, STRICT.id}
  {
    AsksForBoth();
    TwoCommits();
    var ds := CREATES;
    hide EvaluateAll, ActiveRuleIds, ListsEnabledRules, SeverityPair;
    assert Init([Committed, Committed]) == [Committed] && Init([Committed]) == [];
    assert RunWrites([], DEVICE, 0, ds, [Committed]).alerts == [NewAlert(ds[0], DEVICE, 0)];
    assert RunWrites([], DEVICE, 0, ds, [Committed, Committed]).alerts ==
           [NewAlert(ds[0], DEVICE, 0)] + [NewAlert(ds[1], DEVICE, 0)];
    RowsAreActive(NewAlert(ds[0], DEVICE, 0), NewAlert(ds[1], DEVICE, 0));
  }

  lemma RaisedDominates()
    ensures Dominates(View(RAISED, LOOSE.id), View(RAISED, STRICT.id))
  {
    SingleRun();
    hide SeverityRun, RAISED, RunAll, View;
    ViewsDominate(START, [Telemetry(HIGH, Listing([STRICT, LOOSE]))], LOOSE.id, STRICT.id, 1);
  }

  lemma SingleRun()
    ensures var evs := [Telemetry(HIGH, Listing([STRICT, LOOSE]))];
            SeverityRun(START, evs, LOOSE.id, STRICT.id, 1) && RunAll(START, evs, 1) == RAISED
  {
    AsksForBoth();
    hide EvaluateAll, ActiveRuleIds, ListsEnabledRules, SeverityPair, Possible, Process;
    var evs := [Telemetry(HIGH, Listing([STRICT, LOOSE]))];
    assert Init(evs) == [] && Last(evs) == evs[0];
    assert PossibleRun(START, evs, 1) && Consistent(START.db);
    assert Undisturbed(START, evs, LOOSE.id, 1) && Undisturbed(START, evs, STRICT.id, 1);
  }

  /** Both to be resolved, the looser one's update first: after it, the stricter rule is active alone. */
  lemma {:induction false} StrictAheadWhileResolving()
    ensures var script := Listing([LOOSE, STRICT]);
            && Possible(RAISED, Telemetry(LOW, script), 1) && SeverityPair(RAISED.db, LOOSE.id, STRICT.id)
            && ActiveAlone(Half(RAISED, LOW, script), STRICT.id, LOOSE.id)
  {
    BothRaised();
    RaisedDominates();
    PairIsListed(RAISED.db.alerts, LOOSE, STRICT);
    hide RAISED, View, Consistent, ListsEnabledRules, RunWrites, ActiveRuleIds;
    TwoDecisions(LOOSE, STRICT, LOW, {LOOSE.id, STRICT.id}, AutoResolve, RAISED.streaks);
    TwoCommits();
    HalfAfterOne(LOOSE, STRICT, AutoResolve, -1.0);
    SeverityWithinMessage(RAISED, LOW, Listing([LOOSE, STRICT]), [Committed], LOOSE.id, STRICT.id, 1);
  }
}
