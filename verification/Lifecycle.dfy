/** The life of one alert row under every interleaving, and the API's two-statement conflict check. */
module Lifecycle {
  import opened AlertTypes
  import opened AlertTable
  import opened RuleEngine
  import opened SerialRuns
  import opened Protocol
  import opened ActiveBound

  /** What happens to a row: somebody acknowledges it, or it is resolved by a user or by the engine. */
  datatype RowEvent = Acked(user: Id, at: Time) | Closed(actor: Option<Id>, at: Time)

  /** The row as the engine inserts it. */
  predicate Pristine(a: Alert) {
    a.status.Open? && a.ackAt.None? && a.ackBy.None? && a.resolvedAt.None? && a.resolvedBy.None?
  }

  function Mark(a: Alert, e: RowEvent): Alert {
    match e
    case Acked(user, at) => a.(status := Status.Acknowledged, ackAt := Some(at), ackBy := Some(user))
    case Closed(actor, at) => a.(status := Resolved, resolvedAt := Some(at), resolvedBy := actor)
  }

  function MarkAll(a: Alert, events: seq<RowEvent>): Alert {
    if events == [] then a else Mark(MarkAll(a, Init(events)), Last(events))
  }

  /** What a step does to row `i`: which guarded statement matched it. */
  ghost function RowEventOf(s: State, a: Action, i: nat): Option<RowEvent> {
    var db := s.world.db;
    if i >= |db.alerts| || !Enabled(s, a) then None
    else match a
      case Call(Acknowledge(alert, user, at)) =>
        if alert == i && Succeeds(db, a.call) then Some(Acked(user, at)) else None
      case Call(ResolveAlert(alert, user, at)) =>
        if alert == i && Succeeds(db, a.call) then Some(Closed(Some(user), at)) else None
      case Write(w, o) =>
        var p := s.workers[w];
        var d := p.decisions[p.cursor.next];
        if !o.Rejected? && d.decision.AutoResolve? && ActiveFor(db.alerts[i], d.rule.id) then Some(Closed(None, p.m.at))
        else None
      case _ => None
  }

  ghost function RowHistory(s: State, acts: seq<Action>, i: nat, n: nat): seq<RowEvent> {
    if acts == [] then []
    else
      var e := RowEventOf(Exec(s, Init(acts), n), Last(acts), i);
      RowHistory(s, Init(acts), i, n) + if e.Some? then [e.value] else []
  }

  /** open; open, acknowledged; open, resolved; open, acknowledged, resolved. Nothing else. */
  predicate LegalHistory(events: seq<RowEvent>) {
    match |events|
    case 0 => true
    case 1 => true
    case 2 => events[0].Acked? && events[1].Closed?
    case _ => false
  }

  /** Every step keeps every row, marks it with its event if it has one, and otherwise leaves it alone. */
  lemma StepMarksRow(s: State, a: Action, i: nat, n: nat)
    requires Inv(s) && i < |s.world.db.alerts|
    ensures var rows := Next(s, a, n).world.db.alerts;
            var row := s.world.db.alerts[i];
            var e := RowEventOf(s, a, i);
            && i < |rows|
            && (e.Some? ==> row.Active() && (e.value.Acked? ==> row.status.Open?))
            && (e.None? ==> rows[i] == row)
            && (e.Some? && row.resolvedBy.None? ==> rows[i] == Mark(row, e.value))
  {
    if Enabled(s, a) && a.Write? {
      assert WorkerOk(s.world.db.owner, s.workers[a.w]);
    }
  }

  /**
    * From its insertion on, a row is exactly what its history makes of it, and that history is one of the
    * four legal ones: at most one acknowledge and at most one resolution, in that order.
    */
  lemma {:induction false} RowLivesItsHistory(s: State, acts: seq<Action>, i: nat, n: nat)
    requires Inv(s) && i < |s.world.db.alerts| && Pristine(s.world.db.alerts[i])
    ensures var rows := Exec(s, acts, n).world.db.alerts;
            var events := RowHistory(s, acts, i, n);
            && i < |rows|
            && rows[i] == MarkAll(s.world.db.alerts[i], events)
            && LegalHistory(events)
  {
    hide Next, RowEventOf, Inv, MarkAll, LegalHistory;
    if acts == [] {
      EmptyHistory(s.world.db.alerts[i]);
    } else {
      RowLivesItsHistory(s, Init(acts), i, n);
      InvExec(s, Init(acts), n);
      var before := Exec(s, Init(acts), n);
      var row := s.world.db.alerts[i];
      var past := RowHistory(s, Init(acts), i, n);
      StepMarksRow(before, Last(acts), i, n);
      ShapeOfLegal(row, past);
      var e := RowEventOf(before, Last(acts), i);
      assert Exec(s, acts, n) == Next(before, Last(acts), n);
      assert RowHistory(s, acts, i, n) == past + if e.Some? then [e.value] else [];
      hide Exec, RowHistory;
      if e.Some? {
        ExtendHistory(row, past, e.value);
      } else {
        assert past + [] == past;
      }
    }
  }

  lemma EmptyHistory(row: Alert)
    ensures MarkAll(row, []) == row && LegalHistory([])
  {
  }

  /** Status and fields of a row tell its history. */
  lemma ShapeOfLegal(row: Alert, events: seq<RowEvent>)
    requires Pristine(row) && LegalHistory(events)
    ensures var r := MarkAll(row, events);
            && (r.status.Open? <==> events == [])
            && (r.status.Acknowledged? <==> |events| == 1 && events[0].Acked?)
            && (r.status.Resolved? <==> events != [] && Last(events).Closed?)
            && (r.Active() ==> r.resolvedAt.None? && r.resolvedBy.None?)
            && (r.ackAt.Some? <==> events != [] && events[0].Acked?)
            && (r.ackBy.Some? <==> r.ackAt.Some?)
            && (r.ackBy.Some? ==> r.ackBy.value == events[0].user && r.ackAt.value == events[0].at)
            && (r.resolvedAt.Some? <==> r.status.Resolved?)
            && (r.status.Resolved? ==> r.resolvedBy == Last(events).actor && r.resolvedAt.value == Last(events).at)
  {
    if |events| == 2 {
      assert Init(events) == [events[0]] && Init([events[0]]) == [];
    } else if |events| == 1 {
      assert Init(events) == [];
    }
  }

  lemma ExtendHistory(row: Alert, events: seq<RowEvent>, e: RowEvent)
    requires Pristine(row) && LegalHistory(events)
    requires var r := MarkAll(row, events); r.Active() && (e.Acked? ==> r.status.Open?)
    ensures LegalHistory(events + [e]) && MarkAll(row, events + [e]) == Mark(MarkAll(row, events), e)
  {
    ShapeOfLegal(row, events);
    assert Init(events + [e]) == events;
  }

  /** A step only ever appends pristine rows, so every row of a run starts its life open and unmarked. */
  lemma {:induction false} NewRowsArePristine(s: State, a: Action, n: nat)
    requires Inv(s)
    ensures var before, after := s.world.db.alerts, Next(s, a, n).world.db.alerts;
            && |before| <= |after| <= |before| + 1
            && (|after| == |before| + 1 ==> Pristine(Last(after)) && a.Write?)
  {
    if Enabled(s, a) && a.Write? {
      assert WorkerOk(s.world.db.owner, s.workers[a.w]);
    }
  }

  /**
    * What a row says about its past: it was acknowledged once if its acknowledge fields are set and never
    * otherwise; it is resolved if and only if exactly one resolution happened; `resolvedBy` is null exactly
    * when that resolution was the engine's.
    */
  ghost predicate FieldsTell(row: Alert, events: seq<RowEvent>) {
    && (row.ackAt.Some? <==> row.ackBy.Some?)
    && (row.resolvedAt.Some? <==> row.status.Resolved?)
    && (row.ackBy.Some? <==> exists j :: 0 <= j < |events| && events[j].Acked?)
    && (row.status.Resolved? <==> exists j :: 0 <= j < |events| && events[j].Closed?)
    && (row.status.Resolved? && row.resolvedBy.None? <==>
          exists j :: 0 <= j < |events| && events[j].Closed? && events[j].actor.None?)
    && (forall j, k :: 0 <= j < k < |events| ==> events[j].Acked? && events[k].Closed?)
  }

  lemma LegalFieldsTell(row: Alert, events: seq<RowEvent>)
    requires Pristine(row) && LegalHistory(events)
    ensures FieldsTell(MarkAll(row, events), events)
  {
    hide MarkAll, Mark;
    ShapeOfLegal(row, events);
    if events != [] {
      assert events[|events| - 1] == Last(events);
      assert |events| == 2 ==> events[0].Acked? && events[1].Closed?;
    }
  }

  lemma {:induction false} FieldsMatchPath(s: State, acts: seq<Action>, i: nat, n: nat)
    requires Inv(s) && i < |s.world.db.alerts| && Pristine(s.world.db.alerts[i])
    ensures i < |Exec(s, acts, n).world.db.alerts|
    ensures FieldsTell(Exec(s, acts, n).world.db.alerts[i], RowHistory(s, acts, i, n))
  {
    hide Next, Exec, RowEventOf;
    RowLivesItsHistory(s, acts, i, n);
    LegalFieldsTell(s.world.db.alerts[i], RowHistory(s, acts, i, n));
  }

  /** A row that is not there yet has no history. */
  lemma {:induction false} NoHistoryBeforeInsert(s: State, acts: seq<Action>, i: nat, n: nat)
    requires Inv(s) && i >= |Exec(s, acts, n).world.db.alerts|
    ensures RowHistory(s, acts, i, n) == []
  {
    hide Next, Inv;
    if acts != [] {
      var before := Exec(s, Init(acts), n);
      InvExec(s, Init(acts), n);
      NewRowsArePristine(before, Last(acts), n);
      NoHistoryBeforeInsert(s, Init(acts), i, n);
    }
  }

  /** The row is what its legal history made of a row as the engine inserts it. */
  ghost predicate Lived(row: Alert, row0: Alert, events: seq<RowEvent>) {
    Pristine(row0) && LegalHistory(events) && row == MarkAll(row0, events) && FieldsTell(row, events)
  }

  lemma JustInserted(row: Alert)
    requires Pristine(row)
    ensures Lived(row, row, [])
  {
  }

  lemma LivesOn(row0: Alert, row: Alert, events: seq<RowEvent>, e: RowEvent)
    requires Lived(row, row0, events) && row.Active() && (e.Acked? ==> row.status.Open?)
    ensures Lived(Mark(row, e), row0, events + [e])
  {
    ExtendHistory(row0, events, e);
    LegalFieldsTell(row0, events + [e]);
  }

  lemma ActiveIsUnresolved(row: Alert, row0: Alert, events: seq<RowEvent>)
    requires Lived(row, row0, events)
    ensures row.Active() ==> row.resolvedBy.None?
  {
    ShapeOfLegal(row0, events);
  }

  /** One step of a row that lives: its event, if it has one, is the next of its history. */
  lemma StepLivesOn(s: State, a: Action, i: nat, n: nat, row0: Alert, events: seq<RowEvent>)
    requires Inv(s) && i < |s.world.db.alerts| && Lived(s.world.db.alerts[i], row0, events)
    ensures i < |Next(s, a, n).world.db.alerts|
    ensures var e := RowEventOf(s, a, i);
            Lived(Next(s, a, n).world.db.alerts[i], row0, events + if e.Some? then [e.value] else [])
  {
    hide Next, RowEventOf, Inv, Lived, Mark;
    StepMarksRow(s, a, i, n);
    ActiveIsUnresolved(s.world.db.alerts[i], row0, events);
    var e := RowEventOf(s, a, i);
    if e.Some? {
      LivesOn(row0, s.world.db.alerts[i], events, e.value);
    } else {
      assert events + [] == events;
    }
  }

  /**
    * Rows inserted during a run, from empty tables or any others: each started pristine and is exactly what
    * its history since then, one of the four legal ones, has made of it.
    */
  lemma {:induction false} InsertedRowsLiveTheirHistory(s: State, acts: seq<Action>, i: nat, n: nat)
    returns (row0: Alert)
    requires Inv(s) && |s.world.db.alerts| <= i < |Exec(s, acts, n).world.db.alerts|
    ensures Lived(Exec(s, acts, n).world.db.alerts[i], row0, RowHistory(s, acts, i, n))
  {
    hide Next, Inv, Lived, RowEventOf;
    var before, a := Exec(s, Init(acts), n), Last(acts);
    InvExec(s, Init(acts), n);
    if i < |before.world.db.alerts| {
      row0 := InsertedRowsLiveTheirHistory(s, Init(acts), i, n);
      StepLivesOn(before, a, i, n, row0, RowHistory(s, Init(acts), i, n));
    } else {
      row0 := Exec(s, acts, n).world.db.alerts[i];
      NewRowsArePristine(before, a, n);
      NoHistoryBeforeInsert(s, Init(acts), i, n);
      NotThereNoEvent(before, a, i);
      assert RowHistory(s, acts, i, n) == [];
      assert row0 == Last(Exec(s, acts, n).world.db.alerts);
      JustInserted(row0);
    }
  }

  lemma NotThereNoEvent(s: State, a: Action, i: nat)
    requires i >= |s.world.db.alerts|
    ensures RowEventOf(s, a, i) == None
  {
  }

  // ---- Every row has its reading ----

  /** The rule's condition, on the reading of its metric in the message. */
  predicate Breaches(m: Message, rule: Rule) {
    Evaluated(rule, m.readings) && Triggered(rule, m.readings)
  }

  /** A decision carries the message's reading, and creates exactly if that reading breaches. */
  predicate Justified(m: Message, d: RuleDecision) {
    && Evaluated(d.rule, m.readings) && d.value == m.readings[d.rule.metric]
    && (d.decision.CreateAlert? <==> Breaches(m, d.rule))
  }

  ghost predicate WorkerJustified(p: Worker) {
    p.Applying? ==> forall j :: 0 <= j < |p.decisions| ==> Justified(p.m, p.decisions[j])
  }

  ghost predicate AllJustified(s: State) {
    forall w :: 0 <= w < |s.workers| ==> WorkerJustified(s.workers[w])
  }

  lemma {:induction false} DecisionsJustified(
    rules: seq<Rule>, m: Message, active: set<Id>, streaks: map<Id, BreachState>, n: nat)
    ensures forall d :: d in EvaluateAll(rules, m.readings, active, streaks, n).decisions ==> Justified(m, d)
  {
    if rules != [] {
      DecisionsJustified(Init(rules), m, active, streaks, n);
    }
  }

  lemma JustifiedNext(s: State, a: Action, n: nat)
    requires AllJustified(s)
    ensures AllJustified(Next(s, a, n))
  {
    if Enabled(s, a) && a.Evaluate? {
      var p := s.workers[a.w];
      DecisionsJustified(p.rules, p.m, p.active, s.world.streaks, n);
    } else if Enabled(s, a) && a.Write? {
      assert WorkerJustified(s.workers[a.w]);
    }
  }

  lemma {:induction false} JustifiedExec(s: State, acts: seq<Action>, n: nat)
    requires AllJustified(s)
    ensures AllJustified(Exec(s, acts, n))
  {
    hide Next;
    if acts != [] {
      JustifiedExec(s, Init(acts), n);
      JustifiedNext(Exec(s, Init(acts), n), Last(acts), n);
    }
  }

  predicate Clears(m: Message, rule: Rule) {
    Evaluated(rule, m.readings) && !Triggered(rule, m.readings)
  }

  /** The row for the reading of the rule's metric: open, with the rule's severity and the message's device and time. */
  function NewRow(m: Message, rule: Rule): Alert
    requires Evaluated(rule, m.readings)
  {
    Alert(rule.id, m.device, m.readings[rule.metric], rule.severity, Open, m.at, None, None, None, None)
  }

  ghost predicate ClosedByEngine(s: State, a: Action, i: nat) {
    var e := RowEventOf(s, a, i);
    e.Some? && e.value.Closed? && e.value.actor.None?
  }

  // ---- Where a worker's message and rules come from ----

  /** The worker took the message in the course of the run. */
  ghost predicate Taken(s: State, acts: seq<Action>, w: nat, m: Message, n: nat) {
    exists k :: 0 <= k < |acts| && acts[k] == Dequeue(w, m) && Enabled(Exec(s, acts[..k], n), acts[k])
  }

  /**
    * Holding the message, the worker loaded the rule; at that moment the rule's row was enabled, on the
    * message's device, and had the columns the worker holds.
    */
  ghost predicate Loaded(s: State, acts: seq<Action>, w: nat, m: Message, rule: Rule, n: nat) {
    exists k ::
      && 0 <= k < |acts| && LoadsRule(acts[k], w, rule)
      && var at := Exec(s, acts[..k], n);
      && Enabled(at, acts[k]) && at.workers[w] == LoadingRules(m) && rule.id in at.world.db.rules
      && at.world.db.rules[rule.id] == RuleRow(m.device, rule.metric, rule.operator, rule.threshold, rule.severity, true)
  }

  predicate LoadsRule(a: Action, w: nat, rule: Rule) {
    a.LoadRules? && a.w == w && a.rules.Some? && rule in a.rules.value
  }

  /** What a worker holds it got in the run: the message, and every rule it will evaluate or has decided on. */
  ghost predicate Sourced(s: State, acts: seq<Action>, w: nat, p: Worker, n: nat) {
    match p
    case Idle => true
    case LoadingRules(m) => Taken(s, acts, w, m, n)
    case LoadingActive(m, rules) => Taken(s, acts, w, m, n) && forall r :: r in rules ==> Loaded(s, acts, w, m, r, n)
    case Evaluating(m, rules, _) => Taken(s, acts, w, m, n) && forall r :: r in rules ==> Loaded(s, acts, w, m, r, n)
    case Applying(m, ds, _) => Taken(s, acts, w, m, n) && forall d :: d in ds ==> Loaded(s, acts, w, m, d.rule, n)
  }

  lemma TakenStays(s: State, acts: seq<Action>, w: nat, m: Message, n: nat)
    requires acts != [] && Taken(s, Init(acts), w, m, n)
    ensures Taken(s, acts, w, m, n)
  {
    var past := Init(acts);
    var k :| 0 <= k < |past| && past[k] == Dequeue(w, m) && Enabled(Exec(s, past[..k], n), past[k]);
    assert past[..k] == acts[..k] && past[k] == acts[k];
  }

  lemma LoadedStays(s: State, acts: seq<Action>, w: nat, m: Message, rule: Rule, n: nat)
    requires acts != [] && Loaded(s, Init(acts), w, m, rule, n)
    ensures Loaded(s, acts, w, m, rule, n)
  {
    var past := Init(acts);
    var k :| && 0 <= k < |past| && LoadsRule(past[k], w, rule)
             && var at := Exec(s, past[..k], n);
             && Enabled(at, past[k]) && at.workers[w] == LoadingRules(m) && rule.id in at.world.db.rules
             && at.world.db.rules[rule.id] ==
                RuleRow(m.device, rule.metric, rule.operator, rule.threshold, rule.severity, true);
    assert past[..k] == acts[..k] && past[k] == acts[k];
  }

  lemma SourcedStays(s: State, acts: seq<Action>, w: nat, p: Worker, n: nat)
    requires acts != [] && Sourced(s, Init(acts), w, p, n)
    ensures Sourced(s, acts, w, p, n)
  {
    hide Taken, Loaded;
    if !p.Idle? { TakenStays(s, acts, w, p.m, n); }
    if p.LoadingActive? || p.Evaluating? {
      forall r | r in p.rules ensures Loaded(s, acts, w, p.m, r, n) { LoadedStays(s, acts, w, p.m, r, n); }
    } else if p.Applying? {
      forall d | d in p.decisions ensures Loaded(s, acts, w, p.m, d.rule, n) {
        LoadedStays(s, acts, w, p.m, d.rule, n);
      }
    }
  }

  /** The step's own worker: a fresh message is taken, a fresh list is loaded, decisions are about loaded rules. */
  lemma SourcedStep(s: State, acts: seq<Action>, n: nat)
    requires acts != [] && IsWorkerStep(Last(acts))
    requires var before := Exec(s, Init(acts), n);
             Enabled(before, Last(acts)) && Sourced(s, Init(acts), Last(acts).w, before.workers[Last(acts).w], n)
    ensures var before, a := Exec(s, Init(acts), n), Last(acts);
            Sourced(s, acts, a.w, StepWorker(before, a, n).1, n)
  {
    hide Taken, Loaded, ListsEnabledRules, EvaluateAll, Exec;
    var before, a := Exec(s, Init(acts), n), Last(acts);
    var p := before.workers[a.w];
    SourcedStays(s, acts, a.w, p, n);
    match a
    case Dequeue(w, m) => TakenNow(s, acts, n);
    case LoadRules(w, rules) =>
      if rules.Some? {
        forall r | r in rules.value ensures Loaded(s, acts, w, p.m, r, n) { LoadedNow(s, acts, r, n); }
      }
    case LoadActive(w, ok) =>
    case Evaluate(w) => DecisionsAreListed(p.rules, p.m.readings, p.active, before.world.streaks, n);
    case Write(w, o) =>
  }

  lemma TakenNow(s: State, acts: seq<Action>, n: nat)
    requires acts != [] && Last(acts).Dequeue? && Enabled(Exec(s, Init(acts), n), Last(acts))
    ensures Taken(s, acts, Last(acts).w, Last(acts).m, n)
  {
    var k := |acts| - 1;
    assert acts[..k] == Init(acts) && acts[k] == Last(acts);
  }

  lemma LoadedNow(s: State, acts: seq<Action>, rule: Rule, n: nat)
    requires acts != [] && Last(acts).LoadRules? && Enabled(Exec(s, Init(acts), n), Last(acts))
    requires Last(acts).rules.Some? && rule in Last(acts).rules.value
    ensures var a := Last(acts);
            Loaded(s, acts, a.w, Exec(s, Init(acts), n).workers[a.w].m, rule, n)
  {
    hide Exec;
    var k := |acts| - 1;
    assert acts[..k] == Init(acts) && acts[k] == Last(acts);
    var before, a := Exec(s, Init(acts), n), Last(acts);
    var i :| 0 <= i < |a.rules.value| && a.rules.value[i] == rule;
    assert EnabledRule(before.world.db, before.workers[a.w].m.device, a.rules.value[i]);
    assert LoadsRule(acts[k], a.w, rule);
  }

  lemma {:induction false} AllSourced(s: State, acts: seq<Action>, w: nat, n: nat)
    requires Quiescent(s) && w < |s.workers|
    ensures Sourced(s, acts, w, Exec(s, acts, n).workers[w], n)
  {
    if acts != [] {
      AllSourced(s, Init(acts), w, n);
      hide Sourced, StepWorker, Enabled;
      var before, a := Exec(s, Init(acts), n), Last(acts);
      SourcedStays(s, acts, w, before.workers[w], n);
      if IsWorkerStep(a) && Enabled(before, a) && a.w == w {
        SourcedStep(s, acts, n);
      }
      WorkerAfter(before, a, w, n);
    }
    IdleIsSourced(s, acts, w, n);
  }

  lemma IdleIsSourced(s: State, acts: seq<Action>, w: nat, n: nat)
    ensures Sourced(s, acts, w, Idle, n)
  {
  }

  lemma WorkerAfter(s: State, a: Action, w: nat, n: nat)
    requires w < |s.workers|
    ensures var p := Next(s, a, n).workers[w];
            || p == s.workers[w] || p == Idle
            || (IsWorkerStep(a) && Enabled(s, a) && a.w == w && p == StepWorker(s, a, n).1)
  {
  }

  /** The row is the insert of the worker's message for a rule it loaded for that message, on a breaching reading. */
  ghost predicate RecordsBreach(s: State, acts: seq<Action>, w: nat, m: Message, row: Alert, n: nat) {
    exists rule ::
      && Loaded(s, acts, w, m, rule, n) && Breaches(m, rule)
      && row == NewRow(m, rule)
  }

  /** The row's rule is one the worker loaded for its message, whose reading does not breach it. */
  ghost predicate ClearedByReading(s: State, acts: seq<Action>, w: nat, m: Message, row: Alert, n: nat) {
    exists rule :: Loaded(s, acts, w, m, rule, n) && Clears(m, rule) && row.rule == rule.id && row.resolvedAt == Some(m.at)
  }

  /**
    * Where rows come from, in every run from idle workers. A new row is written by a worker for the message
    * it holds and took in the run: that message's reading breached a rule the worker loaded for it, enabled
    * on the device at that moment, and the row records that reading with the rule's severity and the
    * message's device and time. The engine closes a row only likewise, on a reading that did not breach.
    */
  lemma {:induction false} RowsHaveReadings(s: State, acts: seq<Action>, a: Action, i: nat, n: nat)
    requires Quiescent(s)
    ensures var before := Exec(s, acts, n);
            var rows, rows' := before.world.db.alerts, Next(before, a, n).world.db.alerts;
            (i == |rows| < |rows'|) || (i < |rows| <= |rows'| && ClosedByEngine(before, a, i)) ==>
              && a.Write? && a.w < |before.workers| && before.workers[a.w].Applying?
              && var m := before.workers[a.w].m;
              && Taken(s, acts, a.w, m, n)
              && if i == |rows| then RecordsBreach(s, acts, a.w, m, rows'[i], n)
                 else ClearedByReading(s, acts, a.w, m, rows'[i], n)
  {
    JustifiedExec(s, acts, n);
    InvExec(s, acts, n);
    var before := Exec(s, acts, n);
    hide Exec, Taken, Loaded, Quiescent, Next, RowEventOf;
    EngineStatement(before, a, i, n);
    if a.Write? && a.w < |before.workers| && before.workers[a.w].Applying? {
      AllSourced(s, acts, a.w, n);
    }
  }

  /** A row appears, or is closed by the engine, by the statement of one of a worker's justified decisions. */
  lemma EngineStatement(s: State, a: Action, i: nat, n: nat)
    requires Inv(s) && AllJustified(s)
    ensures var rows, rows' := s.world.db.alerts, Next(s, a, n).world.db.alerts;
            (i == |rows| < |rows'|) || (i < |rows| <= |rows'| && ClosedByEngine(s, a, i)) ==>
              && a.Write? && a.w < |s.workers| && s.workers[a.w].Applying?
              && var m := s.workers[a.w].m;
              && exists d :: d in s.workers[a.w].decisions &&
                   if i == |rows| then Breaches(m, d.rule) && rows'[i] == NewRow(m, d.rule)
                   else Clears(m, d.rule) && rows'[i].rule == d.rule.id && rows'[i].resolvedAt == Some(m.at)
  {
    if Enabled(s, a) && a.Write? {
      var p := s.workers[a.w];
      assert WorkerOk(s.world.db.owner, p) && WorkerJustified(p);
      var d := p.decisions[p.cursor.next];
      assert d in p.decisions && Justified(p.m, d);
    }
  }

  // ---- Monotone rows, whatever they start from ----

  function Rank(s: Status): nat {
    match s case Open => 0 case Acknowledged => 1 case Resolved => 2
  }

  lemma {:induction false} RowsOnlyAdvance(s: State, acts: seq<Action>, i: nat, n: nat)
    requires Inv(s) && i < |s.world.db.alerts|
    ensures var row, rows := s.world.db.alerts[i], Exec(s, acts, n).world.db.alerts;
            && i < |rows|
            && Rank(row.status) <= Rank(rows[i].status)
            && (row.status.Resolved? ==> rows[i] == row)
            && (row.rule, row.device, row.value, row.severity, row.triggeredAt) ==
               (rows[i].rule, rows[i].device, rows[i].value, rows[i].severity, rows[i].triggeredAt)
  {
    if acts != [] {
      RowsOnlyAdvance(s, Init(acts), i, n);
      InvExec(s, Init(acts), n);
      RowAdvances(Exec(s, Init(acts), n), Last(acts), i, n);
    }
  }

  lemma RowAdvances(s: State, a: Action, i: nat, n: nat)
    requires Inv(s) && i < |s.world.db.alerts|
    ensures var row, rows := s.world.db.alerts[i], Next(s, a, n).world.db.alerts;
            && i < |rows|
            && Rank(row.status) <= Rank(rows[i].status)
            && (row.status.Resolved? ==> rows[i] == row)
            && (row.rule, row.device, row.value, row.severity, row.triggeredAt) ==
               (rows[i].rule, rows[i].device, rows[i].value, rows[i].severity, rows[i].triggeredAt)
  {
    if Enabled(s, a) && a.Write? {
      assert WorkerOk(s.world.db.owner, s.workers[a.w]);
    }
  }

  // ---- The conflict check ----

  /**
    * The update matched nothing at `s`; then anything may happen; then the lookup runs. If it finds the
    * alert (409), the alert was and still is outside the allowed statuses, unless it was inserted in
    * between; if it does not (404), the alert did not exist when the update ran.
    */
  lemma {:induction false} ConflictCheckIsSound(s: State, acts: seq<Action>, i: nat, acknowledge: bool, n: nat)
    requires Inv(s) && !GuardMatches(s.world.db, i, acknowledge)
    ensures var before, after := s.world.db, Exec(s, acts, n).world.db;
            && (i < |after.alerts| ==> i >= |before.alerts| || !GuardMatches(after, i, acknowledge))
            && (i >= |after.alerts| ==> i >= |before.alerts|)
  {
    if i < |s.world.db.alerts| {
      RowsOnlyAdvance(s, acts, i, n);
    }
  }
}
