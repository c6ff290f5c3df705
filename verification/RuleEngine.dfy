/** The decision logic of the alert engine: `EvaluateRules` and the `BreachTracker` around it. */
module RuleEngine {
  import opened AlertTypes

  predicate CompareThreshold(value: real, operator: Operator, threshold: real) {
    match operator
    case Gt => value > threshold
    case Gte => value >= threshold
    case Lt => value < threshold
    case Lte => value <= threshold
    case Unknown(_) => false
  }

  /** One trigger condition is at least as strict as another, read off operators and thresholds alone. */
  predicate Stricter(op1: Operator, t1: real, op2: Operator, t2: real) {
    match op1
    case Gt => (op2 == Gt || op2 == Gte) && t2 <= t1
    case Gte => (op2 == Gt && t2 < t1) || (op2 == Gte && t2 <= t1)
    case Lt => (op2 == Lt || op2 == Lte) && t1 <= t2
    case Lte => (op2 == Lt && t1 < t2) || (op2 == Lte && t1 <= t2)
    case Unknown(_) => true
  }

  /** `Stricter` is exactly implication between the two conditions on every value. */
  lemma {:induction false} StricterIsImplication(op1: Operator, t1: real, op2: Operator, t2: real)
    ensures Stricter(op1, t1, op2, t2) <==>
            forall v: real :: CompareThreshold(v, op1, t1) ==> CompareThreshold(v, op2, t2)
  {
    if !Stricter(op1, t1, op2, t2) {
      // A value that meets the first condition and fails the second.
      var low := if t1 < t2 then t1 else t2;
      var high := if t1 < t2 then t2 else t1;
      var v := if op1 == Gt then
          (if op2 == Gt || op2 == Gte then (t1 + t2) / 2.0 else high + 1.0)
        else if op1 == Gte then
          (if op2 == Gt || op2 == Gte then t1 else high + 1.0)
        else if op1 == Lt then
          (if op2 == Lt || op2 == Lte then (t1 + t2) / 2.0 else low - 1.0)
        else
          (if op2 == Lt || op2 == Lte then t1 else low - 1.0);
      assert CompareThreshold(v, op1, t1) && !CompareThreshold(v, op2, t2);
    }
  }

  /** The four conditions split the values at the threshold, the inclusive ones with it and the strict ones without. */
  lemma {:induction false} ConditionsSplitAtThreshold(v: real, t: real)
    ensures CompareThreshold(t, Gte, t) && CompareThreshold(t, Lte, t)
    ensures CompareThreshold(v, Gt, t) <==> !CompareThreshold(v, Lte, t)
    ensures CompareThreshold(v, Gte, t) <==> !CompareThreshold(v, Lt, t)
    ensures CompareThreshold(v, Gt, t) <==> CompareThreshold(t, Lt, v)
    ensures CompareThreshold(v, Gte, t) <==> CompareThreshold(t, Lte, v)
    ensures CompareThreshold(v, Gt, t) ==> CompareThreshold(v, Gte, t)
    ensures v != t ==> (CompareThreshold(v, Gt, t) <==> CompareThreshold(v, Gte, t))
  {
  }

  function StreakOf(streaks: map<Id, BreachState>, id: Id): BreachState {
    if id in streaks then streaks[id] else NO_STREAK
  }

  /** A reading extends the current streak or starts a new one. */
  function Observe(s: BreachState, triggered: bool): BreachState {
    if s.breaching == triggered then BreachState(s.count + 1, triggered) else BreachState(1, triggered)
  }

  function Decide(triggered: bool, active: bool, count: nat, n: nat): Option<Decision> {
    if triggered && !active && count >= n then Some(CreateAlert)
    else if !triggered && active && count >= n then Some(AutoResolve)
    else None
  }

  predicate Evaluated(rule: Rule, readings: map<string, real>) {
    rule.metric in readings
  }

  predicate Triggered(rule: Rule, readings: map<string, real>)
    requires Evaluated(rule, readings)
  {
    CompareThreshold(readings[rule.metric], rule.operator, rule.threshold)
  }

  datatype Evaluation = Evaluation(decisions: seq<RuleDecision>, streaks: map<Id, BreachState>)

  /** One iteration of the loop over rules. */
  function EvaluateOne(
    rule: Rule, readings: map<string, real>, active: set<Id>, before: Evaluation, n: nat): Evaluation
  {
    if !Evaluated(rule, readings) then before
    else
      var x := Triggered(rule, readings);
      var s := Observe(StreakOf(before.streaks, rule.id), x);
      var d := Decide(x, rule.id in active, s.count, n);
      Evaluation(
        if d.Some? then before.decisions + [RuleDecision(rule, d.value, readings[rule.metric])]
        else before.decisions,
        before.streaks[rule.id := s])
  }

  /** The whole loop, rule after rule, each seeing the streaks its predecessors left. */
  function EvaluateAll(
    rules: seq<Rule>, readings: map<string, real>, active: set<Id>, streaks: map<Id, BreachState>, n: nat)
    : Evaluation
  {
    if rules == [] then Evaluation([], streaks)
    else EvaluateOne(Last(rules), readings, active, EvaluateAll(Init(rules), readings, active, streaks, n), n)
  }

  /** The decision one rule takes on its own, from the streaks at the start of the message. */
  function OwnDecision(
    rule: Rule, readings: map<string, real>, active: set<Id>, streaks: map<Id, BreachState>, n: nat)
    : Option<Decision>
  {
    if !Evaluated(rule, readings) then None
    else
      var x := Triggered(rule, readings);
      Decide(x, rule.id in active, Observe(StreakOf(streaks, rule.id), x).count, n)
  }

  /** Every rule's own decision, in list order: no rule sees another's streak. */
  function OwnDecisions(
    rules: seq<Rule>, readings: map<string, real>, active: set<Id>, streaks: map<Id, BreachState>, n: nat)
    : seq<RuleDecision>
  {
    if rules == [] then []
    else
      var rule := Last(rules);
      var d := OwnDecision(rule, readings, active, streaks, n);
      OwnDecisions(Init(rules), readings, active, streaks, n)
      + if d.Some? then [RuleDecision(rule, d.value, readings[rule.metric])] else []
  }

  /** The streak an id has after a message, computed from that id's rule alone. */
  function OwnStreak(
    rules: seq<Rule>, readings: map<string, real>, streaks: map<Id, BreachState>, id: Id): BreachState
  {
    if rules == [] then StreakOf(streaks, id)
    else if Last(rules).id == id && Evaluated(Last(rules), readings) then
      Observe(StreakOf(streaks, id), Triggered(Last(rules), readings))
    else OwnStreak(Init(rules), readings, streaks, id)
  }

  lemma {:induction false} UnlistedUntouched(
    rules: seq<Rule>, readings: map<string, real>, active: set<Id>, streaks: map<Id, BreachState>, n: nat, id: Id)
    requires forall i :: 0 <= i < |rules| ==> rules[i].id != id || !Evaluated(rules[i], readings)
    ensures var after := EvaluateAll(rules, readings, active, streaks, n).streaks;
            && (id in after <==> id in streaks)
            && StreakOf(after, id) == StreakOf(streaks, id)
    ensures OwnStreak(rules, readings, streaks, id) == StreakOf(streaks, id)
  {
    if rules != [] {
      UnlistedUntouched(Init(rules), readings, active, streaks, n, id);
    }
  }

  /** With distinct ids, the sequential loop is the rules deciding independently of one another. */
  lemma {:induction false} RulesAreIndependent(
    rules: seq<Rule>, readings: map<string, real>, active: set<Id>, streaks: map<Id, BreachState>, n: nat)
    requires DistinctIds(rules)
    ensures var e := EvaluateAll(rules, readings, active, streaks, n);
            && e.decisions == OwnDecisions(rules, readings, active, streaks, n)
            && forall id :: StreakOf(e.streaks, id) == OwnStreak(rules, readings, streaks, id)
  {
    if rules != [] {
      var rest := Init(rules);
      RulesAreIndependent(rest, readings, active, streaks, n);
      UnlistedUntouched(rest, readings, active, streaks, n, Last(rules).id);
    }
  }

  /** The decision a list holds for a rule id. */
  function DecisionFor(ds: seq<RuleDecision>, id: Id): Option<Decision> {
    if ds == [] then None
    else if Last(ds).rule.id == id then Some(Last(ds).decision)
    else DecisionFor(Init(ds), id)
  }

  predicate DistinctDecisions(ds: seq<RuleDecision>) {
    forall i, j :: 0 <= i < j < |ds| ==> ds[i].rule.id != ds[j].rule.id
  }

  /** Every decision names a listed rule. */
  lemma {:induction false} DecisionsAreListed(
    rules: seq<Rule>, readings: map<string, real>, active: set<Id>, streaks: map<Id, BreachState>, n: nat)
    ensures forall d :: d in EvaluateAll(rules, readings, active, streaks, n).decisions ==> d.rule in rules
  {
    if rules != [] {
      var before := EvaluateAll(Init(rules), readings, active, streaks, n);
      DecisionsAreListed(Init(rules), readings, active, streaks, n);
      forall d | d in EvaluateAll(rules, readings, active, streaks, n).decisions ensures d.rule in rules {
        if d in before.decisions {
          assert d.rule in Init(rules);
        } else {
          assert d.rule == Last(rules);
        }
      }
    }
  }

  predicate Unnamed(ds: seq<RuleDecision>, id: Id) {
    forall j :: 0 <= j < |ds| ==> ds[j].rule.id != id
  }

  lemma AppendDistinct(ds: seq<RuleDecision>, d: RuleDecision)
    requires DistinctDecisions(ds) && Unnamed(ds, d.rule.id)
    ensures DistinctDecisions(ds + [d])
  {
  }

  lemma {:induction false} DecisionsAreDistinct(
    rules: seq<Rule>, readings: map<string, real>, active: set<Id>, streaks: map<Id, BreachState>, n: nat)
    requires DistinctIds(rules)
    ensures DistinctDecisions(EvaluateAll(rules, readings, active, streaks, n).decisions)
  {
    if rules != [] {
      DecisionsAreDistinct(Init(rules), readings, active, streaks, n);
      LastIsNew(rules, readings, active, streaks, n);
      var before := EvaluateAll(Init(rules), readings, active, streaks, n);
      var after := EvaluateOne(Last(rules), readings, active, before, n);
      if after.decisions != before.decisions {
        AppendDistinct(before.decisions, Last(after.decisions));
        assert after.decisions == before.decisions + [Last(after.decisions)];
      }
    }
  }

  lemma LastIsNew(
    rules: seq<Rule>, readings: map<string, real>, active: set<Id>, streaks: map<Id, BreachState>, n: nat)
    requires DistinctIds(rules) && rules != []
    ensures Unnamed(EvaluateAll(Init(rules), readings, active, streaks, n).decisions, Last(rules).id)
  {
    DecisionsAreListed(Init(rules), readings, active, streaks, n);
    var ds := EvaluateAll(Init(rules), readings, active, streaks, n).decisions;
    forall j | 0 <= j < |ds| ensures ds[j].rule.id != Last(rules).id {
      assert ds[j] in ds;
    }
  }

  lemma {:induction false} DecisionForUnlisted(ds: seq<RuleDecision>, id: Id)
    requires Unnamed(ds, id)
    ensures DecisionFor(ds, id) == None
  {
    if ds != [] { DecisionForUnlisted(Init(ds), id); }
  }

  lemma {:induction false} DecisionForListed(ds: seq<RuleDecision>, i: nat)
    requires DistinctDecisions(ds) && i < |ds|
    ensures DecisionFor(ds, ds[i].rule.id) == Some(ds[i].decision)
  {
    if i < |ds| - 1 { DecisionForListed(Init(ds), i); }
  }

  lemma EvaluateOneKeepsOthers(
    rule: Rule, readings: map<string, real>, active: set<Id>, before: Evaluation, n: nat, id: Id)
    requires id != rule.id
    ensures var after := EvaluateOne(rule, readings, active, before, n);
            && DecisionFor(after.decisions, id) == DecisionFor(before.decisions, id)
            && StreakOf(after.streaks, id) == StreakOf(before.streaks, id)
  {
    var after := EvaluateOne(rule, readings, active, before, n);
    if after.decisions != before.decisions {
      assert Init(after.decisions) == before.decisions;
    }
  }

  lemma EvaluateOneDecides(
    rule: Rule, readings: map<string, real>, active: set<Id>, before: Evaluation, n: nat)
    requires DecisionFor(before.decisions, rule.id) == None
    ensures var after := EvaluateOne(rule, readings, active, before, n);
            && DecisionFor(after.decisions, rule.id) == OwnDecision(rule, readings, active, before.streaks, n)
            && (Evaluated(rule, readings) ==>
                  StreakOf(after.streaks, rule.id) ==
                  Observe(StreakOf(before.streaks, rule.id), Triggered(rule, readings)))
  {
  }

  /** What one message does to the i-th rule of its list: streak and decision come from that rule alone. */
  lemma {:induction false} EvaluationOfRule(
    rules: seq<Rule>, readings: map<string, real>, active: set<Id>, streaks: map<Id, BreachState>, n: nat, i: nat)
    requires DistinctIds(rules) && i < |rules|
    ensures var e := EvaluateAll(rules, readings, active, streaks, n);
            && DecisionFor(e.decisions, rules[i].id) == OwnDecision(rules[i], readings, active, streaks, n)
            && StreakOf(e.streaks, rules[i].id) ==
               if Evaluated(rules[i], readings)
               then Observe(StreakOf(streaks, rules[i].id), Triggered(rules[i], readings))
               else StreakOf(streaks, rules[i].id)
  {
    var rest := Init(rules);
    var e := EvaluateAll(rest, readings, active, streaks, n);
    if i < |rules| - 1 {
      EvaluationOfRule(rest, readings, active, streaks, n, i);
      EvaluateOneKeepsOthers(Last(rules), readings, active, e, n, rules[i].id);
    } else {
      UnlistedUntouched(rest, readings, active, streaks, n, rules[i].id);
      LastIsNew(rules, readings, active, streaks, n);
      DecisionForUnlisted(e.decisions, rules[i].id);
      EvaluateOneDecides(rules[i], readings, active, e, n);
    }
  }

  /** Evaluation reads no streak but those of the listed rules. */
  lemma {:induction false} EvaluationReadsOwnStreaks(
    rules: seq<Rule>, readings: map<string, real>, active: set<Id>,
    s: map<Id, BreachState>, t: map<Id, BreachState>, n: nat)
    requires forall i :: 0 <= i < |rules| ==>
               (rules[i].id in s <==> rules[i].id in t) && StreakOf(s, rules[i].id) == StreakOf(t, rules[i].id)
    ensures var a := EvaluateAll(rules, readings, active, s, n);
            var b := EvaluateAll(rules, readings, active, t, n);
            && a.decisions == b.decisions
            && forall id :: (id in s <==> id in t) && StreakOf(s, id) == StreakOf(t, id) ==>
                 (id in a.streaks <==> id in b.streaks) && StreakOf(a.streaks, id) == StreakOf(b.streaks, id)
  {
    if rules != [] {
      EvaluationReadsOwnStreaks(Init(rules), readings, active, s, t, n);
    }
  }

  /** The decision table without debounce: act whenever condition and activity differ. */
  function TableDecisions(rules: seq<Rule>, readings: map<string, real>, active: set<Id>): seq<RuleDecision> {
    if rules == [] then []
    else
      var rule := Last(rules);
      var before := TableDecisions(Init(rules), readings, active);
      if !Evaluated(rule, readings) || Triggered(rule, readings) == (rule.id in active) then before
      else
        var d := if Triggered(rule, readings) then CreateAlert else AutoResolve;
        before + [RuleDecision(rule, d, readings[rule.metric])]
  }

  /** With a debounce of one, the engine follows that table, whatever the streaks hold. */
  lemma {:induction false} UndebouncedTable(
    rules: seq<Rule>, readings: map<string, real>, active: set<Id>, streaks: map<Id, BreachState>)
    ensures EvaluateAll(rules, readings, active, streaks, 1).decisions == TableDecisions(rules, readings, active)
  {
    if rules != [] {
      UndebouncedTable(Init(rules), readings, active, streaks);
      var before := EvaluateAll(Init(rules), readings, active, streaks, 1);
      assert EvaluateAll(rules, readings, active, streaks, 1) == EvaluateOne(Last(rules), readings, active, before, 1);
    }
  }

  /** A decision without debounce: a reading on the alarm side creates if inactive, any other resolves if active. */
  predicate FollowsThreshold(d: Option<Decision>, active: bool, alarm: bool) {
    && (d == Some(CreateAlert) <==> alarm && !active)
    && (d == Some(AutoResolve) <==> !alarm && active)
  }

  /**
    * What the undebounced engine decides, in terms of reading and threshold alone: a `gt` rule alarms above
    * its threshold, a `gte` rule at or above it, `lt` and `lte` likewise below, any other text never.
    */
  lemma {:induction false} DecidesByThreshold(
    rules: seq<Rule>, readings: map<string, real>, active: set<Id>, streaks: map<Id, BreachState>, i: nat)
    requires DistinctIds(rules) && i < |rules|
    ensures var r := rules[i];
            var d := DecisionFor(EvaluateAll(rules, readings, active, streaks, 1).decisions, r.id);
            if r.metric !in readings then d == None
            else
              var v := readings[r.metric];
              && (r.operator == Gt ==> FollowsThreshold(d, r.id in active, v > r.threshold))
              && (r.operator == Gte ==> FollowsThreshold(d, r.id in active, v >= r.threshold))
              && (r.operator == Lt ==> FollowsThreshold(d, r.id in active, v < r.threshold))
              && (r.operator == Lte ==> FollowsThreshold(d, r.id in active, v <= r.threshold))
              && (r.operator.Unknown? ==> FollowsThreshold(d, r.id in active, false))
  {
    hide EvaluateAll, DecisionFor, DistinctIds;
    EvaluationOfRule(rules, readings, active, streaks, 1, i);
  }

  /** The holder of all streaks; its mutex makes `Evaluate` one atomic step. */
  class BreachTracker {
    var streaks: map<Id, BreachState>

    constructor ()
      ensures streaks == map[]
    {
      streaks := map[];
    }

    method Evaluate(rules: seq<Rule>, readings: map<string, real>, active: set<Id>, n: nat)
      returns (decisions: seq<RuleDecision>)
      modifies this
      ensures Evaluation(decisions, streaks) == EvaluateAll(rules, readings, active, old(streaks), n)
    {
      decisions := [];
      for i := 0 to |rules|
        invariant Evaluation(decisions, streaks) == EvaluateAll(rules[..i], readings, active, old(streaks), n)
      {
        var rule := rules[i];
        ghost var before := Evaluation(decisions, streaks);
        assert Init(rules[..i + 1]) == rules[..i];
        if rule.metric in readings {
          var value := readings[rule.metric];
          var triggered := CompareThreshold(value, rule.operator, rule.threshold);
          var state := if rule.id in streaks then streaks[rule.id] else NO_STREAK;
          if state.breaching == triggered {
            state := state.(count := state.count + 1);
          } else {
            state := BreachState(1, triggered);
          }
          streaks := streaks[rule.id := state];
          if triggered && rule.id !in active && state.count >= n {
            decisions := decisions + [RuleDecision(rule, CreateAlert, value)];
          } else if !triggered && rule.id in active && state.count >= n {
            decisions := decisions + [RuleDecision(rule, AutoResolve, value)];
          }
        }
        assert Evaluation(decisions, streaks) == EvaluateOne(rule, readings, active, before, n);
      }
      assert rules[..|rules|] == rules;
    }
  }
}
