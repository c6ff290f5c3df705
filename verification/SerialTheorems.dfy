/** What serial runs guarantee about a rule's alerts, stated on the tables. */
module SerialTheorems {
  import opened AlertTypes
  import opened AlertTable
  import opened RuleEngine
  import opened Hysteresis
  import opened Retry
  import opened SerialRuns

  predicate RuleActive(w: World, rule: Id) {
    ActiveCount(w.db.alerts, rule) > 0
  }

  /** A consistent start from which the events are possible and the rule has no streak yet. */
  ghost predicate FreshRun(w: World, evs: seq<Event>, rule: Id, n: nat) {
    && Consistent(w.db) && PossibleRun(w, evs, n) && rule in w.db.owner
    && StreakOf(w.streaks, rule) == NO_STREAK
  }

  /** After an undisturbed run the rule is active exactly if its latest full window of readings was breaching. */
  lemma {:induction false} ActiveIffLatestWindowBreached(w: World, evs: seq<Event>, rule: Id, n: nat, end: nat, dir: bool)
    requires n >= 1 && FreshRun(w, evs, rule, n) && Undisturbed(w, evs, rule, n)
    requires LatestWindow(Readings(evs, rule), end, n, dir)
    ensures RuleActive(RunAll(w, evs, n), rule) <==> dir
  {
    UndisturbedFollows(w, evs, rule, n);
    LatestWindowDecides(View(w, rule), Readings(evs, rule), n, end, dir);
  }

  /** Without a full window, the rule's activity is what it was. */
  lemma {:induction false} ActivityKeptWithoutWindow(w: World, evs: seq<Event>, rule: Id, n: nat)
    requires n >= 1 && FreshRun(w, evs, rule, n) && Undisturbed(w, evs, rule, n)
    requires !HasWindow(Readings(evs, rule), n)
    ensures RuleActive(RunAll(w, evs, n), rule) <==> RuleActive(w, rule)
  {
    UndisturbedFollows(w, evs, rule, n);
    NoWindowKeeps(View(w, rule), Readings(evs, rule), n);
  }

  /**
    * Two systems in unrelated states, one of them perhaps just restarted, that evaluate the same readings
    * of a rule agree on its activity, and on what any further reading would decide, after a full window.
    */
  lemma {:induction false} RestartSelfStabilises(
    w1: World, evs1: seq<Event>, w2: World, evs2: seq<Event>, rule: Id, n: nat, end: nat, dir: bool)
    requires n >= 1 && rule in w1.db.owner && rule in w2.db.owner
    requires Consistent(w1.db) && PossibleRun(w1, evs1, n) && Undisturbed(w1, evs1, rule, n)
    requires Consistent(w2.db) && PossibleRun(w2, evs2, n) && Undisturbed(w2, evs2, rule, n)
    requires Readings(evs1, rule) == Readings(evs2, rule)
    requires Window(Readings(evs1, rule), end, n, dir)
    ensures var after1, after2 := RunAll(w1, evs1, n), RunAll(w2, evs2, n);
            && (RuleActive(after1, rule) <==> RuleActive(after2, rule))
            && forall x :: Asks(View(after1, rule), x, n) == Asks(View(after2, rule), x, n)
  {
    UndisturbedFollows(w1, evs1, rule, n);
    UndisturbedFollows(w2, evs2, rule, n);
    WindowSynchronises(View(w1, rule), View(w2, rule), Readings(evs1, rule), n, end, dir);
  }

  /**
    * The exact cost of a restart, on the tables: while no full window has been read, the system that was
    * restarted and the one that was not disagree about a rule if and only if the readings began by
    * finishing the streak that the restart lost.
    */
  lemma {:induction false} RestartCost(w: World, evs1: seq<Event>, evs2: seq<Event>, rule: Id, n: nat)
    requires n >= 1 && Consistent(w.db) && rule in w.db.owner
    requires PossibleRun(w, evs1, n) && Undisturbed(w, evs1, rule, n)
    requires var restarted := After(w, Restart, n);
             PossibleRun(restarted, evs2, n) && Undisturbed(restarted, evs2, rule, n)
    requires Readings(evs1, rule) == Readings(evs2, rule) && !HasWindow(Readings(evs1, rule), n)
    ensures RuleActive(RunAll(w, evs1, n), rule) != RuleActive(RunAll(After(w, Restart, n), evs2, n), rule) <==>
            FinishesStreak(View(w, rule), Readings(evs1, rule), n)
  {
    var restarted := After(w, Restart, n);
    UndisturbedFollows(w, evs1, rule, n);
    UndisturbedFollows(restarted, evs2, rule, n);
    assert View(restarted, rule) == Respond(View(w, rule), Reset, n);
    RestartDisagreement(View(w, rule), Readings(evs1, rule), n);
  }

  // ---- Flapping ----

  /** Counts over a run, read off the tables: readings, decisions, resolves by people, decisions lost. */
  function CountEvents(w: World, evs: seq<Event>, rule: Id, n: nat): Tally {
    if evs == [] then Tally(0, 0, 0, 0)
    else
      var t := CountEvents(w, Init(evs), rule, n);
      var before := RunAll(w, Init(evs), n);
      var ev := Last(evs);
      Tally(t.readings + (if ReadingOf(ev, rule).Some? then 1 else 0),
            t.decisions + (if DecisionOf(before, ev, rule, n).Some? then 1 else 0),
            t.resolves + (if HumanResolve(before, ev, rule) then 1 else 0),
            t.lost + (if LosesDecision(before, ev, rule, n) then 1 else 0))
  }

  /** The counts of one event agree with those of its signal. */
  lemma EventCountsAsSignal(w: World, ev: Event, rule: Id, n: nat, t: Tally)
    requires Consistent(w.db) && Possible(w, ev, n) && rule in w.db.owner
    ensures var s := SignalOf(w, ev, rule, n);
            Tally(t.readings + (if ReadingOf(ev, rule).Some? then 1 else 0),
                  t.decisions + (if DecisionOf(w, ev, rule, n).Some? then 1 else 0),
                  t.resolves + (if HumanResolve(w, ev, rule) then 1 else 0),
                  t.lost + (if LosesDecision(w, ev, rule, n) then 1 else 0))
            == if s.Some? then Count(t, View(w, rule), s.value, n) else t
  {
    hide EvaluateAll, ActiveCount, RunAll, Consistent, Possible;
    if ev.Telemetry? && Consults(ev.script) {
      EvaluationMatchesView(w, ev.m, ev.script, rule, n);
    }
    if HumanResolve(w, ev, rule) {
      ActiveRowCounts(w.db.alerts, rule, ev.call.alert);
    }
  }

  lemma {:induction false} EventsCountAsSignals(w: World, evs: seq<Event>, rule: Id, n: nat)
    requires Consistent(w.db) && PossibleRun(w, evs, n) && rule in w.db.owner
    ensures CountEvents(w, evs, rule, n) == TallyOf(View(w, rule), Signals(w, evs, rule, n), n)
  {
    hide SignalOf, Count, Respond, Consistent, View, ReadingOf, DecisionOf, HumanResolve, LosesDecision, After, Possible;
    if evs != [] {
      EventsCountAsSignals(w, Init(evs), rule, n);
      ConsistentRun(w, Init(evs), n);
      ViewFollowsRun(w, Init(evs), rule, n);
      var before := RunAll(w, Init(evs), n);
      EventCountsAsSignal(before, Last(evs), rule, n, CountEvents(w, Init(evs), rule, n));
      if SignalOf(before, Last(evs), rule, n).Some? {
        assert Init(Signals(w, evs, rule, n)) == Signals(w, Init(evs), rule, n);
      } else {
        assert Signals(w, evs, rule, n) == Signals(w, Init(evs), rule, n);
      }
    }
  }

  /** Anti-flapping on the tables, for every serial run with any failures, resolves, rule edits and restarts. */
  lemma {:induction false} AlertsDoNotFlap(w: World, evs: seq<Event>, rule: Id, n: nat)
    requires n >= 1 && FreshRun(w, evs, rule, n)
    ensures Debounced(CountEvents(w, evs, rule, n), n)
  {
    hide CountEvents, TallyOf, Signals, PossibleRun, Consistent, Debounced;
    EventsCountAsSignals(w, evs, rule, n);
    FlappingBound(View(w, rule), Signals(w, evs, rule, n), n);
  }

  /** A decision counts as lost exactly if no statement for it took effect. */
  lemma LostMeansNoEffect(w: World, m: Message, script: Script, rule: Id, n: nat)
    requires Consistent(w.db) && Possible(w, Telemetry(m, script), n) && Consults(script) && rule in w.db.owner
    requires DecisionOf(w, Telemetry(m, script), rule, n).Some?
    ensures LosesDecision(w, Telemetry(m, script), rule, n) <==>
            !TookEffect(EvaluationOf(w, m, script, n).decisions, script.outs, rule)
  {
    var ds := EvaluationOf(w, m, script, n).decisions;
    EvaluationMatchesView(w, m, script, rule, n);
    DecisionsAreDistinct(script.rules.value, m.readings, ActiveRuleIds(w.db.alerts, m.device), w.streaks, n);
    hide EvaluateAll, ActiveCount, RunWrites, TookEffect, Consistent, ListsEnabledRules;
    ActivityDuringWrites(w.db.alerts, m.device, m.at, ds, script.outs, rule);
  }

  predicate WritesCommit(ev: Event) {
    ev.Telemetry? ==> AllCommitted(ev.script.outs)
  }

  /** If every write commits, nothing is lost, so the bound is on decisions and resolves alone. */
  lemma {:induction false} NothingLostWhenCommitted(w: World, evs: seq<Event>, rule: Id, n: nat)
    requires Consistent(w.db) && PossibleRun(w, evs, n) && rule in w.db.owner
    requires forall i :: 0 <= i < |evs| ==> WritesCommit(evs[i])
    ensures CountEvents(w, evs, rule, n).lost == 0
  {
    hide LosesDecision, DecisionOf, ReadingOf, HumanResolve, After, Possible, Consistent;
    if evs != [] {
      NothingLostWhenCommitted(w, Init(evs), rule, n);
      ConsistentRun(w, Init(evs), n);
      assert WritesCommit(evs[|evs| - 1]);
      CommittedLosesNothing(RunAll(w, Init(evs), n), Last(evs), rule, n);
    }
  }

  lemma CommittedLosesNothing(w: World, ev: Event, rule: Id, n: nat)
    requires Consistent(w.db) && Possible(w, ev, n) && rule in w.db.owner && WritesCommit(ev)
    ensures !LosesDecision(w, ev, rule, n)
  {
    hide EvaluateAll, RunWrites, ActiveCount;
    if ev.Telemetry? && Consults(ev.script) {
      WritesMoveView(w, ev.m, ev.script, rule, n);
    }
  }

  // ---- Lost writes ----

  /**
    * A decision whose write had no effect is taken again: after any run in which the rule's readings all
    * went the same way and all their decisions were lost, the next such reading decides the same at once.
    */
  lemma {:induction false} LostDecisionReturns(w: World, evs: seq<Event>, ev: Event, rule: Id, x: bool, n: nat)
    requires Consistent(w.db) && PossibleRun(w, evs, n) && rule in w.db.owner
    requires Possible(RunAll(w, evs, n), ev, n)
    requires Asks(View(w, rule), x, n).Some?
    requires forall i :: 0 <= i < |Signals(w, evs, rule, n)| ==> Signals(w, evs, rule, n)[i] == Reading(x, true)
    requires ReadingOf(ev, rule) == Some(x)
    ensures DecisionOf(RunAll(w, evs, n), ev, rule, n) == Asks(View(w, rule), x, n)
  {
    var k := |Signals(w, evs, rule, n)|;
    assert Signals(w, evs, rule, n) == seq(k, _ => Reading(x, true));
    ViewFollowsRun(w, evs, rule, n);
    ConsistentRun(w, evs, n);
    LostDecisionIsRepeated(View(w, rule), x, k, n);
    EvaluationMatchesView(RunAll(w, evs, n), ev.m, ev.script, rule, n);
  }

  // ---- Severity ----

  predicate LeavesRule(ev: Event, rule: Id) {
    ev.Api? ==> ev.call != DeleteRule(rule) && !(ev.call.UpdateRule? && ev.call.id == rule)
  }

  ghost predicate LeavesRuleThroughout(evs: seq<Event>, rule: Id) {
    forall i :: 0 <= i < |evs| ==> LeavesRule(evs[i], rule)
  }

  lemma {:induction false} RuleRowKept(w: World, evs: seq<Event>, rule: Id, n: nat)
    requires Consistent(w.db) && rule in w.db.rules && PossibleRun(w, evs, n) && LeavesRuleThroughout(evs, rule)
    ensures var after := RunAll(w, evs, n).db;
            rule in after.rules && after.rules[rule] == w.db.rules[rule]
  {
    if evs != [] {
      RuleRowKept(w, Init(evs), rule, n);
      ConsistentRun(w, Init(evs), n);
      assert LeavesRule(Last(evs), rule);
    }
  }

  /** The reading an event gives a rule whose row is known. */
  lemma ReadingOfRow(w: World, ev: Event, rule: Id, n: nat)
    requires Possible(w, ev, n) && rule in w.db.rules && w.db.rules[rule].enabled
    ensures var row := w.db.rules[rule];
            ReadingOf(ev, rule) ==
            if ev.Telemetry? && Consults(ev.script) && ev.m.device == row.device && row.metric in ev.m.readings
            then Some(CompareThreshold(ev.m.readings[row.metric], row.operator, row.threshold))
            else None
  {
    if ev.Telemetry? && Consults(ev.script) {
      var rules := ev.script.rules.value;
      var i := FindOwnRule(rules, ev.m.readings, rule);
      if OwnReading(rules, ev.m.readings, rule).Some? {
        assert EnabledRule(w.db, ev.m.device, rules[i]);
      } else if ev.m.device == w.db.rules[rule].device {
        var k :| 0 <= k < |rules| && rules[k].id == rule;
        assert EnabledRule(w.db, ev.m.device, rules[k]);
      }
    }
  }

  /** Two enabled rules on one device and metric, the condition of one implying that of the other. */
  predicate SeverityPair(db: Tables, loose: Id, strict: Id) {
    && loose in db.rules && strict in db.rules
    && var l, s := db.rules[loose], db.rules[strict];
    && l.enabled && s.enabled && l.device == s.device && l.metric == s.metric
    && Stricter(s.operator, s.threshold, l.operator, l.threshold)
  }

  /** Such rules see the same messages, and the looser is triggered whenever the stricter is. */
  lemma ReadingsTogether(w: World, ev: Event, loose: Id, strict: Id, n: nat)
    requires Possible(w, ev, n) && SeverityPair(w.db, loose, strict)
    ensures var l, s := ReadingOf(ev, loose), ReadingOf(ev, strict);
            (l.Some? <==> s.Some?) && (s.Some? && s.value ==> l.value)
  {
    ReadingOfRow(w, ev, loose, n);
    ReadingOfRow(w, ev, strict, n);
    var l, s := w.db.rules[loose], w.db.rules[strict];
    StricterIsImplication(s.operator, s.threshold, l.operator, l.threshold);
  }

  lemma {:induction false} ReadingsAligned(w: World, evs: seq<Event>, loose: Id, strict: Id, n: nat)
    requires Consistent(w.db) && PossibleRun(w, evs, n) && SeverityPair(w.db, loose, strict)
    requires LeavesRuleThroughout(evs, loose) && LeavesRuleThroughout(evs, strict)
    ensures |Readings(evs, loose)| == |Readings(evs, strict)|
    ensures forall i :: 0 <= i < |Readings(evs, loose)| ==> Readings(evs, strict)[i] ==> Readings(evs, loose)[i]
  {
    hide ReadingOf, RunAll, Consistent, Possible, Stricter;
    if evs != [] {
      ReadingsAligned(w, Init(evs), loose, strict, n);
      RuleRowKept(w, Init(evs), loose, n);
      RuleRowKept(w, Init(evs), strict, n);
      ReadingsTogether(RunAll(w, Init(evs), n), Last(evs), loose, strict, n);
    }
  }

  /** Fresh, unedited rules, and events that neither fail nor involve a person resolving their alerts. */
  ghost predicate SeverityRun(w: World, evs: seq<Event>, loose: Id, strict: Id, n: nat) {
    && FreshRun(w, evs, loose, n) && FreshRun(w, evs, strict, n)
    && Undisturbed(w, evs, loose, n) && Undisturbed(w, evs, strict, n)
    && LeavesRuleThroughout(evs, loose) && LeavesRuleThroughout(evs, strict)
    && SeverityPair(w.db, loose, strict) && !RuleActive(w, strict)
  }

  lemma {:induction false} ViewsDominate(w: World, evs: seq<Event>, loose: Id, strict: Id, n: nat)
    requires SeverityRun(w, evs, loose, strict, n)
    ensures Dominates(View(RunAll(w, evs, n), loose), View(RunAll(w, evs, n), strict))
  {
    ReadingsAligned(w, evs, loose, strict, n);
    UndisturbedFollows(w, evs, loose, n);
    UndisturbedFollows(w, evs, strict, n);
    SeverityDominance(View(w, loose), View(w, strict), Readings(evs, loose), Readings(evs, strict), n);
  }

  /**
    * Severity dominance: of two enabled, unedited rules on one device and metric whose conditions imply one
    * another, the stricter is never active without the looser, after every undisturbed run from no alerts.
    */
  lemma {:induction false} StricterNeverActiveAlone(w: World, evs: seq<Event>, loose: Id, strict: Id, n: nat)
    requires SeverityRun(w, evs, loose, strict, n)
    ensures RuleActive(RunAll(w, evs, n), strict) ==> RuleActive(RunAll(w, evs, n), loose)
  {
    hide SeverityRun, RunAll;
    ViewsDominate(w, evs, loose, strict, n);
  }

  // ---- Severity while a message is being written ----

  predicate ActiveAlone(alerts: seq<Alert>, strict: Id, loose: Id) {
    ActiveCount(alerts, strict) > 0 && ActiveCount(alerts, loose) == 0
  }

  /**
    * The list creates both alerts and only the stricter one's insert has taken effect, or resolves both and
    * only the looser one's update has.
    */
  predicate HalfWritten(ds: seq<RuleDecision>, outs: seq<Outcome>, strict: Id, loose: Id) {
    && DecisionFor(ds, strict).Some? && DecisionFor(ds, strict) == DecisionFor(ds, loose)
    && if DecisionFor(ds, strict).value.CreateAlert? then TookEffect(ds, outs, strict) && !TookEffect(ds, outs, loose)
       else TookEffect(ds, outs, loose) && !TookEffect(ds, outs, strict)
  }

  lemma AskTogether(loose: Engine, strict: Engine, looseX: bool, strictX: bool, n: nat)
    requires Dominates(loose, strict) && (strictX ==> looseX)
    ensures Asks(strict, strictX, n) == Some(CreateAlert) ==> loose.active || Asks(loose, looseX, n) == Some(CreateAlert)
    ensures Asks(loose, looseX, n) == Some(AutoResolve) && strict.active ==> Asks(strict, strictX, n) == Some(AutoResolve)
  {
  }

  /**
    * While a message of the device is being written, at every point of the loop and whatever fails, the
    * stricter rule is active without the looser exactly if the list is half written in the wrong order.
    */
  lemma {:induction false} SeverityWithinMessage(
    w: World, m: Message, script: Script, outs: seq<Outcome>, loose: Id, strict: Id, n: nat)
    requires Consistent(w.db) && Possible(w, Telemetry(m, script), n) && Consults(script)
    requires SeverityPair(w.db, loose, strict) && Dominates(View(w, loose), View(w, strict))
    ensures var ds := EvaluationOf(w, m, script, n).decisions;
            ActiveAlone(RunWrites(w.db.alerts, m.device, m.at, ds, outs).alerts, strict, loose) <==>
            HalfWritten(ds, outs, strict, loose)
  {
    var ds := EvaluationOf(w, m, script, n).decisions;
    var ev := Telemetry(m, script);
    assert loose in w.db.owner && strict in w.db.owner;
    hide EvaluateAll, ActiveCount, RunWrites, TookEffect, Consistent, Possible, SeverityPair;
    DecisionsAreDistinct(script.rules.value, m.readings, ActiveRuleIds(w.db.alerts, m.device), w.streaks, n);
    EvaluationMatchesView(w, m, script, loose, n);
    EvaluationMatchesView(w, m, script, strict, n);
    ReadingsTogether(w, ev, loose, strict, n);
    ActivityDuringWrites(w.db.alerts, m.device, m.at, ds, outs, loose);
    ActivityDuringWrites(w.db.alerts, m.device, m.at, ds, outs, strict);
    EffectNeedsDecision(ds, outs, loose);
    EffectNeedsDecision(ds, outs, strict);
    if ReadingOf(ev, strict).Some? {
      AskTogether(View(w, loose), View(w, strict), ReadingOf(ev, loose).value, ReadingOf(ev, strict).value, n);
    }
  }

  lemma EffectNeedsDecision(ds: seq<RuleDecision>, outs: seq<Outcome>, rule: Id)
    ensures TookEffect(ds, outs, rule) ==> DecisionFor(ds, rule).Some?
  {
  }

  /** The list has the two decisions in the order that leaves the stricter rule ahead. */
  predicate WrongOrder(ds: seq<RuleDecision>, strict: Id, loose: Id) {
    && DecisionFor(ds, strict).Some? && DecisionFor(ds, strict) == DecisionFor(ds, loose)
    && if DecisionFor(ds, strict).value.CreateAlert? then IndexFor(ds, strict) < IndexFor(ds, loose)
       else IndexFor(ds, loose) < IndexFor(ds, strict)
  }

  /** Without errors, a list is half written at some point exactly if its two decisions are in the wrong order. */
  lemma {:induction false} HalfWrittenByOrder(ds: seq<RuleDecision>, strict: Id, loose: Id)
    requires DistinctDecisions(ds)
    ensures (exists outs :: AllCommitted(outs) && HalfWritten(ds, outs, strict, loose)) <==> WrongOrder(ds, strict, loose)
  {
    forall outs | AllCommitted(outs) && HalfWritten(ds, outs, strict, loose) ensures WrongOrder(ds, strict, loose) {
      CommittedHitsOnce(|ds|, outs, IndexFor(ds, strict));
      CommittedHitsOnce(|ds|, outs, IndexFor(ds, loose));
    }
    if WrongOrder(ds, strict, loose) {
      var i, j := IndexFor(ds, strict), IndexFor(ds, loose);
      var k := if i < j then i + 1 else j + 1;
      CommitsCursor(|ds|, k);
      CommittedHitsOnce(|ds|, Commits(k), i);
      CommittedHitsOnce(|ds|, Commits(k), j);
      assert HalfWritten(ds, Commits(k), strict, loose);
    }
  }
}
