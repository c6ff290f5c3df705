/** How many active alerts a rule can have, whatever the interleaving and whatever fails. */
module ActiveBound {
  import opened AlertTypes
  import opened AlertTable
  import opened RuleEngine
  import opened Protocol

  /** The position of the rule's create decision, or the length of the list. */
  function CreateIndex(ds: seq<RuleDecision>, rule: Id): (i: nat)
    ensures i <= |ds|
    ensures i < |ds| ==> ds[i].rule.id == rule && ds[i].decision.CreateAlert?
    ensures i == |ds| ==> forall j :: 0 <= j < |ds| ==> !(ds[j].rule.id == rule && ds[j].decision.CreateAlert?)
  {
    if ds == [] then 0
    else
      var i := CreateIndex(Init(ds), rule);
      if i < |ds| - 1 then i
      else if Last(ds).rule.id == rule && Last(ds).decision.CreateAlert? then |ds| - 1
      else |ds|
  }

  predicate Lists(rules: seq<Rule>, rule: Id) {
    exists i :: 0 <= i < |rules| && rules[i].id == rule
  }

  /** Inserts for the rule that the worker can still make, if it may make `k` attempts in all. */
  function Budget(p: Worker, rule: Id, k: nat): nat {
    match p
    case Evaluating(_, rules, active) => if Lists(rules, rule) && rule !in active then k else 0
    case Applying(_, ds, Running(attempt, next)) =>
      var i := CreateIndex(ds, rule);
      if i == |ds| || attempt > k then 0 else k - attempt + if next <= i then 1 else 0
    case _ => 0
  }

  function Budgets(workers: seq<Worker>, rule: Id, k: nat): nat {
    if workers == [] then 0 else Budgets(Init(workers), rule, k) + Budget(Last(workers), rule, k)
  }

  /** The rule's active alerts, and those the workers can still add on the snapshots they hold. */
  function Exposure(s: State, rule: Id, k: nat): nat {
    ActiveCount(s.world.db.alerts, rule) + Budgets(s.workers, rule, k)
  }

  predicate Busy(p: Worker, device: Id) {
    !p.Idle? && p.m.device == device
  }

  function BusyCount(workers: seq<Worker>, device: Id): nat {
    if workers == [] then 0 else BusyCount(Init(workers), device) + if Busy(Last(workers), device) then 1 else 0
  }

  /** No more than `c` workers hold messages of the same device. */
  ghost predicate Overlap(s: State, c: nat) {
    forall device :: BusyCount(s.workers, device) <= c
  }

  ghost predicate OverlapThroughout(s: State, acts: seq<Action>, c: nat, n: nat) {
    Overlap(Exec(s, acts, n), c) && (acts != [] ==> OverlapThroughout(s, Init(acts), c, n))
  }

  predicate ErrorFree(a: Action) {
    a.Write? ==> a.outcome.Committed?
  }

  /** The attempts a list of decisions may need: three, or one if no write reports an error. */
  ghost predicate AttemptsAllowed(acts: seq<Action>, k: nat) {
    k == MAX_ATTEMPTS || (k == 1 && forall i :: 0 <= i < |acts| ==> ErrorFree(acts[i]))
  }

  predicate AttemptsWithin(workers: seq<Worker>, k: nat) {
    forall w :: 0 <= w < |workers| ==>
      workers[w].Applying? && workers[w].cursor.Running? ==> workers[w].cursor.attempt <= k
  }

  // ---- Sums over workers ----

  lemma {:induction false} BudgetsUpdate(workers: seq<Worker>, w: nat, p: Worker, rule: Id, k: nat)
    requires w < |workers|
    ensures Budgets(workers[w := p], rule, k) == Budgets(workers, rule, k) - Budget(workers[w], rule, k) + Budget(p, rule, k)
  {
    var updated := workers[w := p];
    if w == |workers| - 1 {
      assert Init(updated) == Init(workers);
    } else {
      assert Init(updated) == Init(workers)[w := p];
      BudgetsUpdate(Init(workers), w, p, rule, k);
    }
  }

  lemma {:induction false} BudgetsIdle(workers: seq<Worker>, rule: Id, k: nat)
    requires forall w :: 0 <= w < |workers| ==> workers[w].Idle?
    ensures Budgets(workers, rule, k) == 0
  {
    if workers != [] { BudgetsIdle(Init(workers), rule, k); }
  }

  lemma BudgetNeedsDevice(owner: map<Id, Id>, p: Worker, rule: Id, k: nat)
    requires WorkerOk(owner, p)
    ensures Budget(p, rule, k) <= k
    ensures Budget(p, rule, k) > 0 ==> rule in owner && Busy(p, owner[rule])
  {
  }

  predicate Capped(p: Worker, rule: Id, k: nat, device: Id) {
    Budget(p, rule, k) <= if Busy(p, device) then k else 0
  }

  function Caps(workers: seq<Worker>, device: Id, k: nat): nat {
    if workers == [] then 0 else Caps(Init(workers), device, k) + if Busy(Last(workers), device) then k else 0
  }

  lemma OneMoreTimes(b: nat, k: nat)
    ensures (b + 1) * k == b * k + k
  {
  }

  lemma {:induction false} CapsAreProduct(workers: seq<Worker>, device: Id, k: nat, b: nat)
    requires b == BusyCount(workers, device)
    ensures Caps(workers, device, k) == b * k
  {
    if workers != [] {
      var rest := Init(workers);
      if Busy(Last(workers), device) {
        assert Caps(workers, device, k) == Caps(rest, device, k) + k && BusyCount(rest, device) == b - 1;
        hide Caps, BusyCount;
        CapsAreProduct(rest, device, k, b - 1);
        OneMoreTimes(b - 1, k);
      } else {
        assert Caps(workers, device, k) == Caps(rest, device, k) && BusyCount(rest, device) == b;
        hide Caps, BusyCount;
        CapsAreProduct(rest, device, k, b);
      }
    }
  }

  lemma {:induction false} CappedSum(workers: seq<Worker>, rule: Id, k: nat, device: Id)
    requires forall w :: 0 <= w < |workers| ==> Capped(workers[w], rule, k, device)
    ensures Budgets(workers, rule, k) <= Caps(workers, device, k)
  {
    if workers != [] {
      CappedSum(Init(workers), rule, k, device);
      assert Capped(workers[|workers| - 1], rule, k, device);
    }
  }

  /** Only workers on the rule's device have a budget for it, and none has more than k. */
  lemma BudgetsBounded(owner: map<Id, Id>, workers: seq<Worker>, rule: Id, k: nat)
    requires rule in owner && forall w :: 0 <= w < |workers| ==> WorkerOk(owner, workers[w])
    ensures Budgets(workers, rule, k) <= k * BusyCount(workers, owner[rule])
  {
    forall w | 0 <= w < |workers| ensures Capped(workers[w], rule, k, owner[rule]) {
      BudgetNeedsDevice(owner, workers[w], rule, k);
    }
    CappedSum(workers, rule, k, owner[rule]);
    CapsAreProduct(workers, owner[rule], k, BusyCount(workers, owner[rule]));
  }

  lemma {:induction false} BusyAtMostWorkers(workers: seq<Worker>, device: Id)
    ensures BusyCount(workers, device) <= |workers|
  {
    if workers != [] { BusyAtMostWorkers(Init(workers), device); }
  }

  // ---- Each step ----

  /** Writing a statement moves one unit from the budget to the table at most. */
  lemma WriteKeepsExposure(owner: map<Id, Id>, p: Worker, alerts: seq<Alert>, o: Outcome, rule: Id, k: nat)
    requires WorkerOk(owner, p) && p.Applying? && p.cursor.attempt <= k
    requires k == MAX_ATTEMPTS || (k == 1 && o.Committed?)
    ensures var after := WriteOne(Progress(alerts, p.cursor), p.m.device, p.m.at, p.decisions, o);
            && ActiveCount(after.alerts, rule) + Budget(AfterCursor(p.m, p.decisions, after.cursor), rule, k)
               <= ActiveCount(alerts, rule) + Budget(p, rule, k)
            && (after.cursor.Running? ==> after.cursor.attempt <= k)
  {
    hide ActiveCount, ApplyOne;
    var d := p.decisions[p.cursor.next];
    var i := CreateIndex(p.decisions, rule);
    ActiveCountApplyOne(alerts, p.m.device, d, p.m.at, rule);
    assert i < |p.decisions| ==> p.decisions[i].rule.id == rule;
    hide CreateIndex;
    assert i < |p.decisions| ==> (d.rule.id == rule <==> p.cursor.next == i);
  }

  /** After an evaluation, the budget is no larger than the snapshot allowed. */
  lemma EvaluateKeepsBudget(p: Worker, streaks: map<Id, BreachState>, rule: Id, k: nat, n: nat)
    requires p.Evaluating? && k >= 1
    ensures var ds := EvaluateAll(p.rules, p.m.readings, p.active, streaks, n).decisions;
            Budget(StartApplying(p.m, ds), rule, k) <= Budget(p, rule, k)
  {
    var ds := EvaluateAll(p.rules, p.m.readings, p.active, streaks, n).decisions;
    var i := CreateIndex(ds, rule);
    if i < |ds| {
      DecisionsAreListed(p.rules, p.m.readings, p.active, streaks, n);
      assert ds[i] in ds;
      CreatesAreInactive(p.rules, p.m.readings, p.active, streaks, n);
    }
  }

  lemma {:induction false} CreatesAreInactive(
    rules: seq<Rule>, readings: map<string, real>, active: set<Id>, streaks: map<Id, BreachState>, n: nat)
    ensures forall d :: d in EvaluateAll(rules, readings, active, streaks, n).decisions && d.decision.CreateAlert? ==>
              d.rule.id !in active
  {
    if rules != [] {
      CreatesAreInactive(Init(rules), readings, active, streaks, n);
    }
  }

  /** A snapshot that misses the rule is taken when it has no active alert, so the pool's budgets bound all there is. */
  lemma SnapshotResetsExposure(s: State, w: nat, rule: Id, k: nat)
    requires Inv(s) && w < |s.workers| && s.workers[w].LoadingActive?
    requires var p := s.workers[w];
             Budget(Evaluating(p.m, p.rules, ActiveRuleIds(s.world.db.alerts, p.m.device)), rule, k) > 0
    ensures ActiveCount(s.world.db.alerts, rule) == 0
    ensures rule in s.world.db.owner
  {
    var p := s.workers[w];
    assert WorkerOk(s.world.db.owner, p);
    SnapshotIsActivity(s.world.db, p.m.device, rule);
  }

  lemma StepKeepsBound(s: State, a: Action, rule: Id, k: nat, c: nat, n: nat)
    requires Inv(s) && AttemptsWithin(s.workers, k) && Exposure(s, rule, k) <= k * c
    requires k == MAX_ATTEMPTS || (k == 1 && ErrorFree(a))
    requires Overlap(Next(s, a, n), c)
    ensures Exposure(Next(s, a, n), rule, k) <= k * c
    ensures AttemptsWithin(Next(s, a, n).workers, k)
  {
    hide EvaluateAll, ActiveCount, Budgets, CreateIndex, ListsEnabledRules, Consistent, Overlap, BusyCount, WriteOne, Inv,
         WorkerOk, StepWorker;
    if Enabled(s, a) {
      match a
      case Call(call) => CallKeepsActive(s.world.db, call, rule);
      case Crash => BudgetsIdle(Next(s, a, n).workers, rule, k);
      case _ => WorkerStepKeepsBound(s, a, rule, k, c, n);
    }
  }

  lemma CallKeepsActive(db: Tables, call: ApiCall, rule: Id)
    ensures ActiveCount(AfterCall(db, call).alerts, rule) <= ActiveCount(db.alerts, rule)
  {
    if (call.Acknowledge? || call.ResolveAlert?) && Succeeds(db, call) {
      ActiveCountUpdate(db.alerts, call.alert, AfterCall(db, call).alerts[call.alert], rule);
    }
  }

  lemma WorkerStepKeepsBound(s: State, a: Action, rule: Id, k: nat, c: nat, n: nat)
    requires Inv(s) && AttemptsWithin(s.workers, k) && Exposure(s, rule, k) <= k * c
    requires k == MAX_ATTEMPTS || (k == 1 && ErrorFree(a))
    requires IsWorkerStep(a) && Enabled(s, a) && Overlap(Next(s, a, n), c)
    ensures Exposure(Next(s, a, n), rule, k) <= k * c
    ensures AttemptsWithin(Next(s, a, n).workers, k)
  {
    hide EvaluateAll, ActiveCount, Budgets, CreateIndex, ListsEnabledRules, Consistent, Overlap, BusyCount;
    var p := s.workers[a.w];
    assert WorkerOk(s.world.db.owner, p);
    var (world, after) := StepWorker(s, a, n);
    BudgetsUpdate(s.workers, a.w, after, rule, k);
    match a
    case Dequeue(w, m) =>
    case LoadRules(w, rules) =>
    case LoadActive(w, ok) =>
      if Budget(after, rule, k) > 0 {
        SnapshotResetsExposure(s, w, rule, k);
        PoolBound(s, a, rule, k, c, n);
      }
    case Evaluate(w) => EvaluateKeepsBudget(p, s.world.streaks, rule, k, n);
    case Write(w, o) => WriteKeepsExposure(s.world.db.owner, p, s.world.db.alerts, o, rule, k);
  }

  lemma PoolBound(s: State, a: Action, rule: Id, k: nat, c: nat, n: nat)
    requires Inv(s) && rule in s.world.db.owner && a.LoadActive? && Overlap(Next(s, a, n), c)
    ensures Budgets(Next(s, a, n).workers, rule, k) <= k * c
  {
    var t := Next(s, a, n);
    InvNext(s, a, n);
    assert forall w :: 0 <= w < |t.workers| ==> WorkerOk(t.world.db.owner, t.workers[w]);
    hide Next, Inv, WorkerOk, Budgets, BusyCount;
    BudgetsBounded(t.world.db.owner, t.workers, rule, k);
    TimesMonotone(k, BusyCount(t.workers, t.world.db.owner[rule]), c);
  }

  lemma TimesMonotone(k: nat, b: nat, c: nat)
    requires b <= c
    ensures k * b <= k * c
  {
  }

  /**
    * The bound. In every interleaving in which at most `c` workers hold messages of one device, a rule's
    * active alerts and the inserts still to come never exceed `c` times the attempts a list may need.
    */
  lemma {:induction false} ActiveAlertBound(s: State, acts: seq<Action>, rule: Id, k: nat, c: nat, n: nat)
    requires Inv(s) && AttemptsWithin(s.workers, k) && Exposure(s, rule, k) <= k * c
    requires AttemptsAllowed(acts, k) && OverlapThroughout(s, acts, c, n)
    ensures Exposure(Exec(s, acts, n), rule, k) <= k * c
    ensures AttemptsWithin(Exec(s, acts, n).workers, k)
  {
    if acts != [] {
      ActiveAlertBound(s, Init(acts), rule, k, c, n);
      InvExec(s, Init(acts), n);
      assert ErrorFree(Last(acts)) || k == MAX_ATTEMPTS;
      StepKeepsBound(Exec(s, Init(acts), n), Last(acts), rule, k, c, n);
    }
  }

  ghost predicate Quiescent(s: State) {
    Inv(s) && forall w :: 0 <= w < |s.workers| ==> s.workers[w].Idle?
  }

  lemma {:induction false} PoolNeverExceeded(s: State, acts: seq<Action>, n: nat)
    ensures OverlapThroughout(s, acts, |s.workers|, n)
  {
    var t := Exec(s, acts, n);
    forall device ensures BusyCount(t.workers, device) <= |s.workers| { BusyAtMostWorkers(t.workers, device); }
    if acts != [] { PoolNeverExceeded(s, Init(acts), n); }
  }

  /** Any interleaving of W workers, the API, failing writes and restarts: at most 3 W active alerts per rule. */
  lemma {:induction false} AtMostThreePerWorker(s: State, acts: seq<Action>, rule: Id, n: nat)
    requires Quiescent(s) && ActiveCount(s.world.db.alerts, rule) <= 3 * |s.workers|
    ensures Exposure(Exec(s, acts, n), rule, 3) <= 3 * |s.workers|
  {
    BudgetsIdle(s.workers, rule, 3);
    PoolNeverExceeded(s, acts, n);
    ActiveAlertBound(s, acts, rule, 3, |s.workers|, n);
  }

  /** If no write reports an error: at most W. */
  lemma {:induction false} AtMostOnePerWorker(s: State, acts: seq<Action>, rule: Id, n: nat)
    requires Quiescent(s) && ActiveCount(s.world.db.alerts, rule) <= |s.workers|
    requires forall i :: 0 <= i < |acts| ==> ErrorFree(acts[i])
    ensures Exposure(Exec(s, acts, n), rule, 1) <= |s.workers|
  {
    BudgetsIdle(s.workers, rule, 1);
    PoolNeverExceeded(s, acts, n);
    ActiveAlertBound(s, acts, rule, 1, |s.workers|, n);
  }

  /**
    * The documented invariant, under the conditions the code needs: when messages of one device do not
    * overlap and no alert write errors, every rule has at most one active alert, whatever the API does
    * and whenever it does it.
    */
  lemma {:induction false} AtMostOneActiveAlert(s: State, acts: seq<Action>, rule: Id, n: nat)
    requires Quiescent(s) && ActiveCount(s.world.db.alerts, rule) <= 1
    requires OverlapThroughout(s, acts, 1, n)
    requires forall i :: 0 <= i < |acts| ==> ErrorFree(acts[i])
    ensures ActiveCount(Exec(s, acts, n).world.db.alerts, rule) <= 1
  {
    BudgetsIdle(s.workers, rule, 1);
    ActiveAlertBound(s, acts, rule, 1, 1, n);
  }
}
