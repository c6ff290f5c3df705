/** What serial runs guarantee about a rule's alerts, carried to interleavings and stated on their own steps. */
module InterleavedTheorems {
  import opened AlertTypes
  import opened AlertTable
  import opened RuleEngine
  import opened Hysteresis
  import opened Retry
  import opened SerialRuns
  import opened SerialTheorems
  import opened Protocol
  import opened ActiveBound
  import opened DeviceView
  import opened Serializability

  // ---- A rule's account of a run ----

  /** The readings evaluated for a rule in order, how many decisions they led to, and how many of those were lost. */
  datatype Account = Account(readings: seq<bool>, decisions: nat, lost: nat)

  function Plus(a: Account, b: Account): Account {
    Account(a.readings + b.readings, a.decisions + b.decisions, a.lost + b.lost)
  }

  const NOTHING := Account([], 0, 0)

  /** A reading, if there is one, and whether it led to a decision. */
  function Entry(x: Option<bool>, d: Option<Decision>): Account {
    Account(if x.Some? then [x.value] else [], if d.Some? then 1 else 0, 0)
  }

  /** A decision for the rule of which no statement took effect. */
  function Loss(ds: seq<RuleDecision>, outs: seq<Outcome>, rule: Id): Account {
    Account([], 0, if DecisionFor(ds, rule).Some? && !TookEffect(ds, outs, rule) then 1 else 0)
  }

  /**
    * What one step adds: an evaluation its reading and decision, the last write of a message the loss of
    * the decision, given what the database has answered to the message's writes.
    */
  ghost function StepAccount(s: State, a: Action, outs: seq<Outcome>, rule: Id, n: nat): Account {
    if a.Evaluate? && Enabled(s, a) then
      var p := s.workers[a.w];
      Entry(OwnReading(p.rules, p.m.readings, rule),
            DecisionFor(EvaluateAll(p.rules, p.m.readings, p.active, s.world.streaks, n).decisions, rule))
    else if a.Write? && Finishes(s, a, n) then Loss(s.workers[a.w].decisions, outs, rule)
    else NOTHING
  }

  ghost function RunAccount(s: State, acts: seq<Action>, rule: Id, n: nat): Account {
    if acts == [] then NOTHING
    else
      var before, a := Exec(s, Init(acts), n), Last(acts);
      var outs := if IsWorkerStep(a) && a.w < |s.workers| then Scripts(s, acts, n)[a.w].outs else [];
      Plus(RunAccount(s, Init(acts), rule, n), StepAccount(before, a, outs, rule, n))
  }

  /** The readings that the workers' evaluations in a run gave the rule, in order. */
  ghost function RunReadings(s: State, acts: seq<Action>, rule: Id, n: nat): seq<bool> {
    RunAccount(s, acts, rule, n).readings
  }

  /** The same for an event of a serial run. */
  function EventAccount(w: World, ev: Event, rule: Id, n: nat): Account {
    Entry(ReadingOf(ev, rule), DecisionOf(w, ev, rule, n)).(lost := if LosesDecision(w, ev, rule, n) then 1 else 0)
  }

  function SerialAccount(w: World, evs: seq<Event>, rule: Id, n: nat): Account {
    if evs == [] then NOTHING
    else Plus(SerialAccount(w, Init(evs), rule, n), EventAccount(RunAll(w, Init(evs), n), Last(evs), rule, n))
  }

  /** What a worker has evaluated and not yet written to its end. */
  function InHand(p: Worker, script: Script, rule: Id): Account {
    if p.Applying? && script.rules.Some? then
      Entry(OwnReading(script.rules.value, p.m.readings, rule), DecisionFor(p.decisions, rule))
    else NOTHING
  }

  // ---- One step ----

  lemma UnownedHasNoEntry(
    owner: map<Id, Id>, rules: seq<Rule>, readings: map<string, real>, active: set<Id>, streaks: map<Id, BreachState>,
    n: nat, rule: Id, device: Id)
    requires forall i :: 0 <= i < |rules| ==> Owned(owner, rules[i].id, device)
    requires !Owned(owner, rule, device)
    ensures OwnReading(rules, readings, rule) == None
    ensures DecisionFor(EvaluateAll(rules, readings, active, streaks, n).decisions, rule) == None
  {
    var i := FindOwnRule(rules, readings, rule);
    UnevaluatedUndecided(rules, readings, active, streaks, n, rule);
  }

  lemma {:induction false} UnownedHasNoDecision(owner: map<Id, Id>, ds: seq<RuleDecision>, rule: Id, device: Id)
    requires forall i :: 0 <= i < |ds| ==> Owned(owner, ds[i].rule.id, device)
    requires !Owned(owner, rule, device)
    ensures DecisionFor(ds, rule) == None
  {
    if ds != [] { UnownedHasNoDecision(owner, Init(ds), rule, device); }
  }

  /** A step for one device adds nothing to the account of another device's rule. */
  lemma OtherDeviceAddsNothing(s: State, a: Action, outs: seq<Outcome>, rule: Id, n: nat)
    requires Inv(s) && IsWorkerStep(a) && Enabled(s, a) && !Owned(s.world.db.owner, rule, StepDevice(s, a))
    ensures StepAccount(s, a, outs, rule, n) == NOTHING
  {
    if a.Evaluate? || a.Write? {
      var p := s.workers[a.w];
      assert WorkerOk(s.world.db.owner, p);
      if a.Evaluate? {
        UnownedHasNoEntry(
          s.world.db.owner, p.rules, p.m.readings, p.active, s.world.streaks, n, rule, p.m.device);
      } else {
        UnownedHasNoDecision(s.world.db.owner, p.decisions, rule, p.m.device);
      }
    }
  }

  /** Nor does a message of one device. */
  lemma OtherMessageAddsNothing(t: World, m: Message, script: Script, rule: Id, n: nat)
    requires Consistent(t.db) && Possible(t, Telemetry(m, script), n) && !Owned(t.db.owner, rule, m.device)
    ensures EventAccount(t, Telemetry(m, script), rule, n) == NOTHING
  {
    hide EvaluateAll, OwnReading, DecisionFor, LosesDecision, Consistent, Possible, ListsEnabledRules, EventAccount;
    if Consults(script) {
      PossibleLists(t, m, script, n);
      ListedAreOwned(t.db, m.device, script.rules.value);
      UnownedHasNoEntry(
        t.db.owner, script.rules.value, m.readings, ActiveRuleIds(t.db.alerts, m.device), t.streaks, n, rule, m.device);
    }
    UneventfulEvent(t, Telemetry(m, script), rule, n);
  }

  lemma UneventfulEvent(t: World, ev: Event, rule: Id, n: nat)
    requires ReadingOf(ev, rule) == None && DecisionOf(t, ev, rule, n) == None
    ensures EventAccount(t, ev, rule, n) == NOTHING
  {
    hide EventAccount, Plus;
    UndecidedEvent(t, ev, rule, n);
  }

  lemma PossibleLists(t: World, m: Message, script: Script, n: nat)
    requires Possible(t, Telemetry(m, script), n) && script.rules.Some?
    ensures ListsEnabledRules(t.db, m.device, script.rules.value)
  {
  }

  /** An event's account, once its decisions are known. */
  lemma AccountOfEvent(t: World, m: Message, script: Script, rule: Id, n: nat)
    requires Consistent(t.db) && Possible(t, Telemetry(m, script), n) && rule in t.db.owner
    ensures EventAccount(t, Telemetry(m, script), rule, n) ==
            if !Consults(script) then NOTHING
            else
              var ds := EvaluationOf(t, m, script, n).decisions;
              Plus(Entry(OwnReading(script.rules.value, m.readings, rule), DecisionFor(ds, rule)), Loss(ds, script.outs, rule))
  {
    hide EvaluateAll, TookEffect, LosesDecision, Consistent, Possible, OwnReading, DecisionFor, EventAccount, Entry,
         ListsEnabledRules, RunWrites, Plus;
    var ev := Telemetry(m, script);
    if DecisionOf(t, ev, rule, n).None? {
      UndecidedEvent(t, ev, rule, n);
      PlusNothing(Entry(ReadingOf(ev, rule), None));
    } else {
      LostMeansNoEffect(t, m, script, rule, n);
      DecidedEvent(t, ev, rule, n);
    }
    if !Consults(script) { UneventfulEvent(t, ev, rule, n); }
  }

  lemma UndecidedEvent(t: World, ev: Event, rule: Id, n: nat)
    requires DecisionOf(t, ev, rule, n) == None
    ensures EventAccount(t, ev, rule, n) == Entry(ReadingOf(ev, rule), None)
  {
    hide ReadingOf, DecisionOf, View, After;
  }

  lemma DecidedEvent(t: World, ev: Event, rule: Id, n: nat)
    ensures EventAccount(t, ev, rule, n) ==
            Plus(Entry(ReadingOf(ev, rule), DecisionOf(t, ev, rule, n)),
                 Account([], 0, if LosesDecision(t, ev, rule, n) then 1 else 0))
  {
    hide ReadingOf, DecisionOf, LosesDecision;
    PlusLost(Entry(ReadingOf(ev, rule), DecisionOf(t, ev, rule, n)), if LosesDecision(t, ev, rule, n) then 1 else 0);
  }

  lemma PlusLost(a: Account, k: nat)
    requires a.lost == 0
    ensures Plus(a, Account([], 0, k)) == a.(lost := k)
  {
  }

  lemma NoDecisionsNoLoss(outs: seq<Outcome>, rule: Id)
    ensures DecisionFor([], rule) == None && Loss([], outs, rule) == NOTHING
  {
  }

  /**
    * The books balance in every step of a worker: what it had in hand and what the step adds is what the
    * finished message is worth, if the step finishes it, and what is in hand afterwards.
    */
  ghost predicate Balances(s: State, t: World, a: Action, script: Script, rule: Id, n: nat)
    requires IsWorkerStep(a) && !a.Dequeue? && Enabled(s, a)
  {
    var r := Answered(script, a);
    var p, p' := s.workers[a.w], StepWorker(s, a, n).1;
    Plus(InHand(p, script, rule), StepAccount(s, a, r.outs, rule, n)) ==
    Plus(if Finishes(s, a, n) then EventAccount(t, Telemetry(p.m, r), rule, n) else NOTHING, InHand(p', r, rule))
  }

  lemma QueriesBalance(s: State, t: World, a: Action, script: Script, rule: Id, n: nat)
    requires (a.LoadRules? || a.LoadActive?) && Enabled(s, a) && SameRules(s.world, t)
    requires Tracks(s.world, t, s.workers[a.w], script, n)
    ensures Balances(s, t, a, script, rule, n)
  {
    hide Agree, ListsEnabledRules, EventAccount, ActiveRuleIds, Plus;
    PlusNothing(NOTHING);
    if Finishes(s, a, n) {
      UneventfulEvent(t, Telemetry(s.workers[a.w].m, Answered(script, a)), rule, n);
    }
  }

  lemma EvaluateBalances(s: State, t: World, a: Action, script: Script, rule: Id, n: nat)
    requires a.Evaluate? && Enabled(s, a) && Inv(s) && SameRules(s.world, t) && Consistent(t.db) && rule in t.db.owner
    requires Tracks(s.world, t, s.workers[a.w], script, n)
    ensures Balances(s, t, a, script, rule, n)
  {
    hide Agree, ListsEnabledRules, EventAccount, ActiveRuleIds, EvaluateAll, Consistent, Inv, OwnReading, Possible, Plus;
    OwnStep(s, t, a, script, n);
    SameDecisions(s, t, a, script, n);
    var p := s.workers[a.w];
    if Finishes(s, a, n) {
      PossibleWhenFinished(s, t, a, script, n);
      AccountOfEvent(t, p.m, script, rule, n);
      NoDecisionsNoLoss(script.outs, rule);
    }
    hide DecisionFor, Loss, Entry;
    PlusNothing(StepAccount(s, a, script.outs, rule, n));
  }

  lemma WriteBalances(s: State, t: World, a: Action, script: Script, rule: Id, n: nat)
    requires a.Write? && Enabled(s, a) && Inv(s) && SameRules(s.world, t) && Consistent(t.db) && rule in t.db.owner
    requires Tracks(s.world, t, s.workers[a.w], script, n)
    ensures Balances(s, t, a, script, rule, n)
  {
    hide Agree, ListsEnabledRules, EventAccount, ActiveRuleIds, EvaluateAll, Consistent, Inv, OwnReading, Possible,
         DecisionFor, Loss, Entry, RunWrites, CursorAfter, WriteOne, Plus;
    OwnStep(s, t, a, script, n);
    var p, r := s.workers[a.w], Answered(script, a);
    if Finishes(s, a, n) {
      PossibleWhenFinished(s, t, a, r, n);
      AccountOfEvent(t, p.m, r, rule, n);
      assert EvaluationOf(t, p.m, r, n) == EvaluationOf(t, p.m, script, n);
      PlusNothing(EventAccount(t, Telemetry(p.m, r), rule, n));
    } else {
      PlusNothing(InHand(p, script, rule));
    }
  }

  lemma StepBalances(s: State, t: World, a: Action, script: Script, rule: Id, n: nat)
    requires IsWorkerStep(a) && !a.Dequeue? && Enabled(s, a) && Inv(s) && SameRules(s.world, t) && Consistent(t.db)
    requires Tracks(s.world, t, s.workers[a.w], script, n) && rule in t.db.owner
    ensures Balances(s, t, a, script, rule, n)
  {
    hide EvaluateAll, Agree, Consistent, ListsEnabledRules, EventAccount, Loss, OwnReading, DecisionFor, Entry, Possible,
         StepWorker, Follows, Tracks, Answered, InHand, StepAccount, Inv, SameRules;
    match a
    case LoadRules(_, _) => QueriesBalance(s, t, a, script, rule, n);
    case LoadActive(_, _) => QueriesBalance(s, t, a, script, rule, n);
    case Evaluate(_) => EvaluateBalances(s, t, a, script, rule, n);
    case Write(_, _) => WriteBalances(s, t, a, script, rule, n);
  }

  lemma SameDecisions(s: State, t: World, a: Action, script: Script, n: nat)
    requires a.Evaluate? && Enabled(s, a) && Consistent(t.db) && Tracks(s.world, t, s.workers[a.w], script, n)
    ensures var p := s.workers[a.w];
            Consults(script) &&
            EvaluateAll(p.rules, p.m.readings, p.active, s.world.streaks, n).decisions ==
            EvaluationOf(t, p.m, script, n).decisions
  {
    var p := s.workers[a.w];
    ListedAreOwned(t.db, p.m.device, p.rules);
    AgreeSymmetric(s.world, t, p.m.device);
    EvaluationsAgree(t, s.world, p.m, p.rules, n);
  }

  // ---- Whole runs ----

  /** A run's account is that of its finished messages and of what the device's worker has in hand. */
  ghost predicate Books(workers: seq<Worker>, scripts: seq<Script>, run: Account, done: Account, rule: Id, device: Id)
    requires |scripts| == |workers|
  {
    && (forall w :: 0 <= w < |workers| && Busy(workers[w], device) ==> run == Plus(done, InHand(workers[w], scripts[w], rule)))
    && (NoneBusy(workers, device) ==> run == done)
  }

  lemma PlusNothing(a: Account)
    ensures Plus(a, NOTHING) == a && Plus(NOTHING, a) == a
  {
  }

  lemma PlusAssociates(a: Account, b: Account, c: Account)
    ensures Plus(Plus(a, b), c) == Plus(a, Plus(b, c))
  {
  }

  lemma EventOfOther(s: State, t: World, scripts: seq<Script>, a: Action, rule: Id, n: nat)
    requires Sync(s, t, scripts, n) && Inv(s) && Finishes(s, a, n)
    requires !Owned(t.db.owner, rule, s.workers[a.w].m.device)
    ensures EventAccount(t, Telemetry(s.workers[a.w].m, Answered(scripts[a.w], a)), rule, n) == NOTHING
  {
    assert Tracks(s.world, t, s.workers[a.w], scripts[a.w], n);
    OwnStep(s, t, a, scripts[a.w], n);
    PossibleWhenFinished(s, t, a, Answered(scripts[a.w], a), n);
    OtherMessageAddsNothing(t, s.workers[a.w].m, Answered(scripts[a.w], a), rule, n);
  }

  /** Nobody but the stepping worker can be busy on its device, before and after. */
  lemma OwnBooks(s: State, scripts: seq<Script>, a: Action, run: Account, done: Account, rule: Id, device: Id, n: nat)
    requires |scripts| == |s.workers| && Overlap(s, 1) && IsWorkerStep(a) && Enabled(s, a) && StepDevice(s, a) == device
    requires if a.Dequeue? then NoneBusy(s.workers, device) else Busy(s.workers[a.w], device)
    requires run == Plus(done, InHand(StepWorker(s, a, n).1, Answered(scripts[a.w], a), rule))
    ensures Books(Next(s, a, n).workers, scripts[a.w := Answered(scripts[a.w], a)], run, done, rule, device)
  {
    var s' := Next(s, a, n);
    forall v | 0 <= v < |s.workers| && v != a.w ensures !Busy(s'.workers[v], device) {
      if !a.Dequeue? { SoleWorker(s, v, a.w, device); }
    }
    assert s'.workers[a.w] == StepWorker(s, a, n).1;
    assert Busy(s'.workers[a.w], device) || s'.workers[a.w].Idle?;
    PlusNothing(done);
  }

  lemma OtherBooks(s: State, scripts: seq<Script>, a: Action, run: Account, done: Account, rule: Id, device: Id, n: nat)
    requires |scripts| == |s.workers| && IsWorkerStep(a) && Enabled(s, a) && StepDevice(s, a) != device
    requires Books(s.workers, scripts, run, done, rule, device)
    ensures Books(Next(s, a, n).workers, scripts[a.w := Answered(scripts[a.w], a)], run, done, rule, device)
  {
    var s' := Next(s, a, n);
    forall v | 0 <= v < |s.workers| ensures Busy(s'.workers[v], device) == Busy(s.workers[v], device) {
    }
  }

  lemma BooksStep(
    s: State, t: World, scripts: seq<Script>, a: Action, run: Account, done: Account, rule: Id, device: Id, n: nat)
    requires Sync(s, t, scripts, n) && Inv(s) && Overlap(s, 1) && Overlap(Next(s, a, n), 1)
    requires IsWorkerStep(a) && Enabled(s, a) && Owned(t.db.owner, rule, device)
    requires Books(s.workers, scripts, run, done, rule, device)
    ensures var r := Answered(scripts[a.w], a);
            var event := if Finishes(s, a, n) then EventAccount(t, Telemetry(s.workers[a.w].m, r), rule, n) else NOTHING;
            Books(Next(s, a, n).workers, scripts[a.w := r],
                  Plus(run, StepAccount(s, a, r.outs, rule, n)), Plus(done, event), rule, device)
  {
    hide Plus, EventAccount, Overlap, Inv, EvaluateAll, WriteOne, Tracks, Agree, Consistent;
    var p, r := s.workers[a.w], Answered(scripts[a.w], a);
    var step := StepAccount(s, a, r.outs, rule, n);
    var event := if Finishes(s, a, n) then EventAccount(t, Telemetry(p.m, r), rule, n) else NOTHING;
    PlusNothing(run);
    PlusNothing(done);
    if StepDevice(s, a) != device {
      OtherDeviceAddsNothing(s, a, r.outs, rule, n);
      if Finishes(s, a, n) { EventOfOther(s, t, scripts, a, rule, n); }
      OtherBooks(s, scripts, a, run, done, rule, device, n);
    } else if a.Dequeue? {
      DequeuedDeviceWasFree(s, a, n);
      OwnBooks(s, scripts, a, run, done, rule, device, n);
    } else {
      assert Busy(p, device) && Tracks(s.world, t, p, scripts[a.w], n);
      StepBalances(s, t, a, scripts[a.w], rule, n);
      PlusAssociates(done, InHand(p, scripts[a.w], rule), step);
      PlusAssociates(done, event, InHand(StepWorker(s, a, n).1, r, rule));
      OwnBooks(s, scripts, a, Plus(run, step), Plus(done, event), rule, device, n);
    }
  }

  /** A run of worker steps, from idle workers, in which messages of one device do not overlap. */
  ghost predicate Disjoint(s: State, acts: seq<Action>, n: nat) {
    && Quiescent(s) && OverlapThroughout(s, acts, 1, n)
    && forall i :: 0 <= i < |acts| ==> IsWorkerStep(acts[i])
  }

  lemma SerialForm(s: State, acts: seq<Action>, n: nat)
    requires Disjoint(s, acts, n)
    ensures Consistent(s.world.db)
    ensures OnlyTelemetry(Completed(s, acts, n)) && PossibleRun(s.world, Completed(s, acts, n), n)
  {
    hide Completed, PossibleRun, Sync, RunAll, Exec, OverlapThroughout, Scripts, Consistent, OnlyTelemetry;
    RunStaysInStep(s, acts, n);
  }

  lemma InStep(s: State, acts: seq<Action>, n: nat)
    requires Disjoint(s, acts, n)
    ensures Inv(Exec(s, acts, n)) && Sync(Exec(s, acts, n), RunAll(s.world, Completed(s, acts, n), n), Scripts(s, acts, n), n)
  {
    hide Completed, PossibleRun, Sync, RunAll, Exec, OverlapThroughout, Scripts;
    RunStaysInStep(s, acts, n);
    InvExec(s, acts, n);
  }

  /** All but the last step of such a run is one, and the last step is a worker's. */
  lemma DisjointBefore(s: State, acts: seq<Action>, n: nat)
    requires acts != [] && Disjoint(s, acts, n)
    ensures Disjoint(s, Init(acts), n) && IsWorkerStep(Last(acts))
    ensures Overlap(Exec(s, Init(acts), n), 1) && Overlap(Next(Exec(s, Init(acts), n), Last(acts), n), 1)
  {
    hide Overlap, Quiescent, OverlapThroughout;
    OverlapBefore(s, acts, n);
    assert Last(acts) == acts[|acts| - 1];
    assert forall i :: 0 <= i < |acts| - 1 ==> Init(acts)[i] == acts[i];
  }

  lemma StepOfRun(s: State, acts: seq<Action>, rule: Id, n: nat)
    requires acts != [] && IsWorkerStep(Last(acts))
    ensures var before, a, scripts := Exec(s, Init(acts), n), Last(acts), Scripts(s, Init(acts), n);
            && Exec(s, acts, n) == Next(before, a, n)
            && if Enabled(before, a) then
                 && Scripts(s, acts, n) == scripts[a.w := Answered(scripts[a.w], a)]
                 && Scripts(s, acts, n)[a.w] == Answered(scripts[a.w], a)
                 && RunAccount(s, acts, rule, n) ==
                    Plus(RunAccount(s, Init(acts), rule, n),
                         StepAccount(before, a, Answered(scripts[a.w], a).outs, rule, n))
               else
                 && Scripts(s, acts, n) == scripts
                 && RunAccount(s, acts, rule, n) == Plus(RunAccount(s, Init(acts), rule, n), NOTHING)
  {
    hide Next, Plus, Answered;
    var before, a := Exec(s, Init(acts), n), Last(acts);
    if !Enabled(before, a) { DisabledAddsNothing(before, a, rule, n); }
  }

  lemma {:induction false} BooksHold(s: State, acts: seq<Action>, rule: Id, device: Id, n: nat)
    requires Disjoint(s, acts, n) && Owned(s.world.db.owner, rule, device)
    ensures Books(Exec(s, acts, n).workers, Scripts(s, acts, n), RunAccount(s, acts, rule, n),
                  SerialAccount(s.world, Completed(s, acts, n), rule, n), rule, device)
  {
    if acts != [] {
      DisjointBefore(s, acts, n);
      BooksHold(s, Init(acts), rule, device, n);
      ExtendBooks(s, acts, rule, device, n);
    } else {
      FirstBooks(s.workers, Scripts(s, [], n), rule, device);
    }
  }

  lemma FirstBooks(workers: seq<Worker>, scripts: seq<Script>, rule: Id, device: Id)
    requires |scripts| == |workers| && forall w :: 0 <= w < |workers| ==> workers[w].Idle?
    ensures Books(workers, scripts, NOTHING, NOTHING, rule, device)
  {
  }

  lemma ExtendBooks(s: State, acts: seq<Action>, rule: Id, device: Id, n: nat)
    requires acts != [] && Disjoint(s, acts, n) && Owned(s.world.db.owner, rule, device)
    requires Books(Exec(s, Init(acts), n).workers, Scripts(s, Init(acts), n), RunAccount(s, Init(acts), rule, n),
                   SerialAccount(s.world, Completed(s, Init(acts), n), rule, n), rule, device)
    ensures Books(Exec(s, acts, n).workers, Scripts(s, acts, n), RunAccount(s, acts, rule, n),
                  SerialAccount(s.world, Completed(s, acts, n), rule, n), rule, device)
  {
    hide *;
    DisjointBefore(s, acts, n);
    SerialForm(s, Init(acts), n);
    InStep(s, Init(acts), n);
    SerialAccountStep(s, acts, rule, n);
    StepOfRun(s, acts, rule, n);
    var before, a := Exec(s, Init(acts), n), Last(acts);
    var evs, scripts := Completed(s, Init(acts), n), Scripts(s, Init(acts), n);
    var run, done := RunAccount(s, Init(acts), rule, n), SerialAccount(s.world, evs, rule, n);
    OwnerKept(s.world, evs, rule, device, n);
    PlusNothing(run);
    PlusNothing(done);
    FinishesWhenEnabled(before, a, n);
    if Enabled(before, a) {
      BooksStep(before, RunAll(s.world, evs, n), scripts, a, run, done, rule, device, n);
    } else {
      NotEnabledStays(before, a, n);
    }
  }

  lemma OwnerKept(w: World, evs: seq<Event>, rule: Id, device: Id, n: nat)
    requires Consistent(w.db) && PossibleRun(w, evs, n) && Owned(w.db.owner, rule, device)
    ensures Owned(RunAll(w, evs, n).db.owner, rule, device)
  {
    hide Consistent, PossibleRun, RunAll;
    ConsistentRun(w, evs, n);
  }

  lemma FinishesWhenEnabled(s: State, a: Action, n: nat)
    ensures Finishes(s, a, n) ==> Enabled(s, a)
  {
  }

  lemma SerialAccountStep(s: State, acts: seq<Action>, rule: Id, n: nat)
    requires acts != []
    ensures var before, a := Exec(s, Init(acts), n), Last(acts);
            var evs := Completed(s, Init(acts), n);
            SerialAccount(s.world, Completed(s, acts, n), rule, n) ==
            Plus(SerialAccount(s.world, evs, rule, n),
                 if Finishes(before, a, n)
                 then EventAccount(RunAll(s.world, evs, n), Telemetry(before.workers[a.w].m, Scripts(s, acts, n)[a.w]), rule, n)
                 else NOTHING)
  {
    hide EventAccount, StepWorker, RunAll, Plus, Scripts, SerialAccount, Exec;
    var before, a, evs := Exec(s, Init(acts), n), Last(acts), Completed(s, Init(acts), n);
    if Finishes(before, a, n) {
      SerialAccountAppend(s.world, evs, Telemetry(before.workers[a.w].m, Scripts(s, acts, n)[a.w]), rule, n);
    } else {
      assert Completed(s, acts, n) == evs;
      PlusNothing(SerialAccount(s.world, evs, rule, n));
    }
  }

  lemma SerialAccountAppend(w: World, evs: seq<Event>, ev: Event, rule: Id, n: nat)
    ensures SerialAccount(w, evs + [ev], rule, n) ==
            Plus(SerialAccount(w, evs, rule, n), EventAccount(RunAll(w, evs, n), ev, rule, n))
  {
    hide EventAccount, RunAll, Plus;
    assert Init(evs + [ev]) == evs;
  }

  lemma DisabledAddsNothing(s: State, a: Action, rule: Id, n: nat)
    requires !Enabled(s, a)
    ensures forall outs :: StepAccount(s, a, outs, rule, n) == NOTHING
  {
  }

  /** When no message is in hand, the run's account is that of its serial form. */
  lemma AccountIsSerial(s: State, acts: seq<Action>, rule: Id, n: nat)
    requires Disjoint(s, acts, n) && Quiescent(Exec(s, acts, n)) && rule in s.world.db.owner
    ensures RunAccount(s, acts, rule, n) == SerialAccount(s.world, Completed(s, acts, n), rule, n)
  {
    hide RunAccount, SerialAccount, Exec, Completed, Scripts, Disjoint;
    BooksHold(s, acts, rule, s.world.db.owner[rule], n);
    assert NoneBusy(Exec(s, acts, n).workers, s.world.db.owner[rule]);
  }

  lemma {:induction false} SerialAccountCounts(w: World, evs: seq<Event>, rule: Id, n: nat)
    requires OnlyTelemetry(evs)
    ensures var acc := SerialAccount(w, evs, rule, n);
            && acc.readings == Readings(evs, rule)
            && CountEvents(w, evs, rule, n) == Tally(|acc.readings|, acc.decisions, 0, acc.lost)
  {
    hide LosesDecision, DecisionOf, ReadingOf, RunAll;
    if evs != [] {
      SerialAccountCounts(w, Init(evs), rule, n);
      var acc, ev := SerialAccount(w, Init(evs), rule, n), Last(evs);
      assert evs[|evs| - 1].Telemetry?;
      TelemetryIsNotHuman(RunAll(w, Init(evs), n), ev, rule);
      assert SerialAccount(w, evs, rule, n).readings ==
             acc.readings + if ReadingOf(ev, rule).Some? then [ReadingOf(ev, rule).value] else [];
    }
  }

  lemma TelemetryIsNotHuman(w: World, ev: Event, rule: Id)
    requires ev.Telemetry?
    ensures !HumanResolve(w, ev, rule)
  {
  }

  /** Only a reading can lead to a decision, and only a decision can be lost. */
  lemma LossNeedsReading(w: World, ev: Event, rule: Id, n: nat)
    requires Consistent(w.db) && Possible(w, ev, n) && rule in w.db.owner
    ensures LosesDecision(w, ev, rule, n) ==> ReadingOf(ev, rule).Some?
  {
    hide EvaluateAll, Consistent, View, Possible, OwnReading, DecisionFor;
    if ev.Telemetry? && Consults(ev.script) {
      EvaluationMatchesView(w, ev.m, ev.script, rule, n);
    }
  }

  predicate AllLost(acc: Account, x: bool) {
    acc.lost == |acc.readings| && forall i :: 0 <= i < |acc.readings| ==> acc.readings[i] == x
  }

  predicate AllLostReadings(signals: seq<Signal>, x: bool) {
    forall i :: 0 <= i < |signals| ==> signals[i] == Reading(x, true)
  }

  /** At most one loss per reading; and if every reading was lost, the rule's signals say so. */
  lemma {:induction false} AllLostSignals(w: World, evs: seq<Event>, rule: Id, x: bool, n: nat)
    requires Consistent(w.db) && PossibleRun(w, evs, n) && rule in w.db.owner && OnlyTelemetry(evs)
    ensures var acc := SerialAccount(w, evs, rule, n);
            acc.lost <= |acc.readings| && (AllLost(acc, x) ==> AllLostReadings(Signals(w, evs, rule, n), x))
  {
    assert AllLostReadings([], x);
    hide LosesDecision, DecisionOf, ReadingOf, Consistent, Possible, RunAll, SignalOf, AllLost, AllLostReadings, Plus,
         EventAccount;
    if evs != [] {
      AllLostSignals(w, Init(evs), rule, x, n);
      ConsistentRun(w, Init(evs), n);
      assert evs[|evs| - 1].Telemetry?;
      var before, ev := RunAll(w, Init(evs), n), Last(evs);
      LossNeedsReading(before, ev, rule, n);
      TelemetrySignal(before, ev, rule, n);
      OneMoreLost(SerialAccount(w, Init(evs), rule, n), Signals(w, Init(evs), rule, n), before, ev, rule, x, n);
    }
  }

  lemma OneMoreLost(acc: Account, signals: seq<Signal>, w: World, ev: Event, rule: Id, x: bool, n: nat)
    requires acc.lost <= |acc.readings| && (AllLost(acc, x) ==> AllLostReadings(signals, x))
    requires LosesDecision(w, ev, rule, n) ==> ReadingOf(ev, rule).Some?
    requires SignalOf(w, ev, rule, n) ==
             if ReadingOf(ev, rule).Some? then Some(Reading(ReadingOf(ev, rule).value, LosesDecision(w, ev, rule, n))) else None
    ensures var acc' := Plus(acc, EventAccount(w, ev, rule, n));
            var s := SignalOf(w, ev, rule, n);
            && acc'.lost <= |acc'.readings|
            && (AllLost(acc', x) ==> AllLostReadings(signals + if s.Some? then [s.value] else [], x))
  {
    hide LosesDecision, DecisionOf, ReadingOf, SignalOf;
    var acc' := Plus(acc, EventAccount(w, ev, rule, n));
    assert forall i :: 0 <= i < |acc.readings| ==> acc'.readings[i] == acc.readings[i];
    if ReadingOf(ev, rule).Some? {
      assert acc'.readings[|acc.readings|] == ReadingOf(ev, rule).value;
    }
  }

  lemma TelemetrySignal(w: World, ev: Event, rule: Id, n: nat)
    requires ev.Telemetry?
    ensures SignalOf(w, ev, rule, n) ==
            if ReadingOf(ev, rule).Some? then Some(Reading(ReadingOf(ev, rule).value, LosesDecision(w, ev, rule, n))) else None
  {
    hide View, ReadingOf, DecisionOf;
  }

  // ---- The rule's view ----

  lemma {:induction false} ActiveOnDevice(alerts: seq<Alert>, rule: Id, device: Id)
    requires forall i :: 0 <= i < |alerts| && alerts[i].rule == rule ==> alerts[i].device == device
    ensures ActiveCount(alerts, rule) == ActiveCount(DeviceRows(alerts, device), rule)
  {
    if alerts != [] {
      ActiveOnDevice(Init(alerts), rule, device);
      var rows, last := DeviceRows(Init(alerts), device), Last(alerts);
      if last.device == device {
        ActiveCountAppend(rows, last, rule);
        assert DeviceRows(alerts, device) == rows + [last];
      } else {
        assert DeviceRows(alerts, device) == rows;
      }
    }
  }

  lemma SameActivity(a: Tables, b: Tables, rule: Id)
    requires Consistent(a) && Consistent(b) && a.owner == b.owner && rule in a.owner
    requires DeviceRows(a.alerts, a.owner[rule]) == DeviceRows(b.alerts, a.owner[rule])
    ensures ActiveCount(a.alerts, rule) == ActiveCount(b.alerts, rule)
  {
    ActiveOnDevice(a.alerts, rule, a.owner[rule]);
    ActiveOnDevice(b.alerts, rule, a.owner[rule]);
  }

  lemma {:induction false} FaultlessTelemetryIsUndisturbed(w: World, evs: seq<Event>, rule: Id, n: nat)
    requires OnlyTelemetry(evs) && forall i :: 0 <= i < |evs| ==> Faultless(evs[i])
    ensures Undisturbed(w, evs, rule, n)
  {
    if evs != [] {
      FaultlessTelemetryIsUndisturbed(w, Init(evs), rule, n);
      assert evs[|evs| - 1] == Last(evs);
    }
  }

  /** A rule cannot tell the run from its serial form. */
  lemma ViewIsSerial(s: State, acts: seq<Action>, rule: Id, n: nat)
    requires Disjoint(s, acts, n) && Quiescent(Exec(s, acts, n)) && rule in s.world.db.owner
    ensures View(Exec(s, acts, n).world, rule) == View(RunAll(s.world, Completed(s, acts, n), n), rule)
  {
    hide Exec, RunAll, PossibleRun, Consistent, WorkerOk, Completed, OverlapThroughout, DeviceRows, Started, Handled;
    InterleavingIsSerial(s, acts, n);
    ConsistentRun(s.world, Completed(s, acts, n), n);
    SameActivity(Exec(s, acts, n).world.db, RunAll(s.world, Completed(s, acts, n), n).db, rule);
  }

  // ---- The theorems ----

  ghost predicate ErrorFreeRun(acts: seq<Action>) {
    forall i :: 0 <= i < |acts| ==> ErrorFree(acts[i])
  }

  lemma ErrorFreeIsUndisturbed(s: State, acts: seq<Action>, rule: Id, n: nat)
    requires Disjoint(s, acts, n) && ErrorFreeRun(acts)
    ensures Undisturbed(s.world, Completed(s, acts, n), rule, n)
    ensures OnlyTelemetry(Completed(s, acts, n)) && PossibleRun(s.world, Completed(s, acts, n), n)
  {
    hide Undisturbed, PossibleRun, Completed, Sync, RunAll, Exec;
    SerialForm(s, acts, n);
    ErrorFreeCommits(s, acts, n);
    FaultlessTelemetryIsUndisturbed(s.world, Completed(s, acts, n), rule, n);
  }

  /**
    * The debounce under concurrency: after every interleaving of error-free, non-overlapping messages, a
    * rule is active exactly if the latest full window of the readings that the workers evaluated for it was
    * breaching, and as it was at the start if there was no such window.
    */
  lemma {:induction false} InterleavedWindow(s: State, acts: seq<Action>, rule: Id, n: nat)
    requires n >= 1 && Disjoint(s, acts, n) && Quiescent(Exec(s, acts, n)) && ErrorFreeRun(acts)
    requires rule in s.world.db.owner && StreakOf(s.world.streaks, rule) == NO_STREAK
    ensures var active := RuleActive(Exec(s, acts, n).world, rule);
            var xs := RunReadings(s, acts, rule, n);
            && (forall end: nat, dir :: LatestWindow(xs, end, n, dir) ==> active == dir)
            && (!HasWindow(xs, n) ==> active == RuleActive(s.world, rule))
  {
    SerialForm(s, acts, n);
    hide Exec, RunAll, PossibleRun, Consistent, LatestWindow, HasWindow, WorkerOk, Disjoint, Completed, RunAccount,
         SerialAccount, Undisturbed, CountEvents, Readings;
    var evs := Completed(s, acts, n);
    ErrorFreeIsUndisturbed(s, acts, rule, n);
    ViewIsSerial(s, acts, rule, n);
    AccountIsSerial(s, acts, rule, n);
    SerialAccountCounts(s.world, evs, rule, n);
    var xs := RunReadings(s, acts, rule, n);
    forall end: nat, dir | LatestWindow(xs, end, n, dir) ensures RuleActive(Exec(s, acts, n).world, rule) == dir {
      ActiveIffLatestWindowBreached(s.world, evs, rule, n, end, dir);
    }
    if !HasWindow(xs, n) {
      ActivityKeptWithoutWindow(s.world, evs, rule, n);
    }
  }

  /**
    * Anti-flapping under concurrency, whatever fails: n times the decisions that were not lost never exceeds
    * the readings evaluated, all counted on the run's own steps.
    */
  lemma {:induction false} InterleavedFlapping(s: State, acts: seq<Action>, rule: Id, n: nat)
    requires n >= 1 && Disjoint(s, acts, n) && Quiescent(Exec(s, acts, n))
    requires rule in s.world.db.owner && StreakOf(s.world.streaks, rule) == NO_STREAK
    ensures var acc := RunAccount(s, acts, rule, n);
            n * (acc.decisions - acc.lost) <= |acc.readings|
  {
    hide *;
    var evs := Completed(s, acts, n);
    SerialForm(s, acts, n);
    FreshSerialForm(s.world, evs, rule, n);
    AccountIsSerial(s, acts, rule, n);
    SerialAccountCounts(s.world, evs, rule, n);
    AlertsDoNotFlap(s.world, evs, rule, n);
    DebouncedAccount(RunAccount(s, acts, rule, n), n);
  }

  lemma FreshSerialForm(w: World, evs: seq<Event>, rule: Id, n: nat)
    requires Consistent(w.db) && PossibleRun(w, evs, n) && rule in w.db.owner && StreakOf(w.streaks, rule) == NO_STREAK
    ensures FreshRun(w, evs, rule, n)
  {
    hide Consistent, PossibleRun;
  }

  lemma DebouncedAccount(acc: Account, n: nat)
    requires Debounced(Tally(|acc.readings|, acc.decisions, 0, acc.lost), n)
    ensures n * (acc.decisions - acc.lost) <= |acc.readings|
  {
    assert acc.decisions - 0 - acc.lost == acc.decisions - acc.lost;
  }

  /**
    * Lost decisions under concurrency: if the rule would ask for a decision on reading `x`, and then every
    * reading evaluated goes that way and every one of them leads to a decision that is lost, the rule still
    * asks for the same decision on the next such reading.
    */
  lemma {:induction false} InterleavedLostReturns(s: State, acts: seq<Action>, rule: Id, x: bool, n: nat)
    requires Disjoint(s, acts, n) && Quiescent(Exec(s, acts, n)) && rule in s.world.db.owner
    requires Asks(View(s.world, rule), x, n).Some?
    requires AllLost(RunAccount(s, acts, rule, n), x)
    ensures Asks(View(Exec(s, acts, n).world, rule), x, n) == Asks(View(s.world, rule), x, n)
  {
    hide *;
    var evs := Completed(s, acts, n);
    SerialForm(s, acts, n);
    ViewIsSerial(s, acts, rule, n);
    AccountIsSerial(s, acts, rule, n);
    AllLostSignals(s.world, evs, rule, x, n);
    ViewFollowsRun(s.world, evs, rule, n);
    LostReadingsRepeat(View(s.world, rule), Signals(s.world, evs, rule, n), x, n);
  }

  lemma LostReadingsRepeat(e: Engine, signals: seq<Signal>, x: bool, n: nat)
    requires Asks(e, x, n).Some? && AllLostReadings(signals, x)
    ensures Asks(Run(e, signals, n), x, n) == Asks(e, x, n)
  {
    hide Run, Asks;
    assert signals == seq(|signals|, _ => Reading(x, true));
    LostDecisionIsRepeated(e, x, |signals|, n);
  }

  /** Severity dominance under concurrency: whenever no message is in hand, the stricter rule is not active alone. */
  lemma {:induction false} InterleavedSeverity(s: State, acts: seq<Action>, loose: Id, strict: Id, n: nat)
    requires Disjoint(s, acts, n) && Quiescent(Exec(s, acts, n)) && ErrorFreeRun(acts)
    requires SeverityPair(s.world.db, loose, strict) && !RuleActive(s.world, strict)
    requires StreakOf(s.world.streaks, loose) == NO_STREAK && StreakOf(s.world.streaks, strict) == NO_STREAK
    ensures RuleActive(Exec(s, acts, n).world, strict) ==> RuleActive(Exec(s, acts, n).world, loose)
  {
    assert loose in s.world.db.owner && strict in s.world.db.owner && Consistent(s.world.db);
    hide Exec, RunAll, PossibleRun, Consistent, WorkerOk, Disjoint, Completed, SeverityPair, Undisturbed, ActiveCount,
         LeavesRuleThroughout, OnlyTelemetry, ErrorFreeRun;
    var evs := Completed(s, acts, n);
    ErrorFreeIsUndisturbed(s, acts, loose, n);
    ErrorFreeIsUndisturbed(s, acts, strict, n);
    ViewIsSerial(s, acts, loose, n);
    ViewIsSerial(s, acts, strict, n);
    TelemetryLeavesRule(evs, loose);
    TelemetryLeavesRule(evs, strict);
    StricterNeverActiveAlone(s.world, evs, loose, strict, n);
  }

  lemma TelemetryLeavesRule(evs: seq<Event>, rule: Id)
    requires OnlyTelemetry(evs)
    ensures LeavesRuleThroughout(evs, rule)
  {
  }
}
