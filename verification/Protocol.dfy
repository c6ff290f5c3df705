/**
  * The ingestion workers, the HTTP API and the tables as one transition system. Every query and every
  * statement is one atomic step; steps of different workers and of the API interleave freely.
  */
module Protocol {
  import opened AlertTypes
  import opened AlertTable
  import opened RuleEngine
  import opened SerialRuns

  /** Where a worker is inside `process`, with the local variables it holds there. */
  datatype Worker =
    | Idle
    | LoadingRules(m: Message)
    | LoadingActive(m: Message, rules: seq<Rule>)
    | Evaluating(m: Message, rules: seq<Rule>, active: set<Id>)
    | Applying(m: Message, decisions: seq<RuleDecision>, cursor: Cursor)

  datatype State = State(world: World, workers: seq<Worker>)

  datatype Action =
    | Dequeue(w: nat, m: Message)
    | LoadRules(w: nat, rules: Option<seq<Rule>>)  // None: the query failed
    | LoadActive(w: nat, ok: bool)
    | Evaluate(w: nat)
    | Write(w: nat, outcome: Outcome)
    | Call(call: ApiCall)
    | Crash  // the ingestion process restarts; messages in hand and streaks are gone

  predicate IsWorkerStep(a: Action) {
    !a.Call? && !a.Crash?
  }

  /** A statement can only take effect if the foreign key to its rule holds. */
  predicate CanCommit(db: Tables, d: RuleDecision) {
    d.decision.CreateAlert? ==> d.rule.id in db.rules
  }

  ghost predicate Enabled(s: State, a: Action) {
    match a
    case Dequeue(w, _) => w < |s.workers| && s.workers[w].Idle?
    case LoadRules(w, rules) =>
      && w < |s.workers| && s.workers[w].LoadingRules?
      && (rules.Some? ==> ListsEnabledRules(s.world.db, s.workers[w].m.device, rules.value))
    case LoadActive(w, _) => w < |s.workers| && s.workers[w].LoadingActive?
    case Evaluate(w) => w < |s.workers| && s.workers[w].Evaluating?
    case Write(w, o) =>
      && w < |s.workers| && s.workers[w].Applying?
      && var p := s.workers[w];
      && p.cursor.Running? && ValidCursor(p.cursor, |p.decisions|)
      && (!o.Rejected? ==> CanCommit(s.world.db, p.decisions[p.cursor.next]))
    case Call(_) => true
    case Crash => true
  }

  /** A worker with decisions applies them; without any it is done. */
  function StartApplying(m: Message, ds: seq<RuleDecision>): Worker {
    if ds == [] then Idle else Applying(m, ds, StartCursor(|ds|))
  }

  function AfterCursor(m: Message, ds: seq<RuleDecision>, c: Cursor): Worker {
    if c.Finished? then Idle else Applying(m, ds, c)
  }

  /** The worker a step leaves behind, and the world it leaves. */
  ghost function StepWorker(s: State, a: Action, n: nat): (World, Worker)
    requires IsWorkerStep(a) && Enabled(s, a)
  {
    var world := s.world;
    match a
    case Dequeue(w, m) => (world, LoadingRules(m))
    case LoadRules(w, rules) =>
      (world, if rules.None? || rules.value == [] then Idle else LoadingActive(s.workers[w].m, rules.value))
    case LoadActive(w, ok) =>
      var p := s.workers[w];
      (world, if ok then Evaluating(p.m, p.rules, ActiveRuleIds(world.db.alerts, p.m.device)) else Idle)
    case Evaluate(w) =>
      var p := s.workers[w];
      var e := EvaluateAll(p.rules, p.m.readings, p.active, world.streaks, n);
      (world.(streaks := e.streaks), StartApplying(p.m, e.decisions))
    case Write(w, o) =>
      var p := s.workers[w];
      var after := WriteOne(Progress(world.db.alerts, p.cursor), p.m.device, p.m.at, p.decisions, o);
      (world.(db := world.db.(alerts := after.alerts)), AfterCursor(p.m, p.decisions, after.cursor))
  }

  /** One step. A step that is not enabled does not happen. */
  ghost function Next(s: State, a: Action, n: nat): (r: State)
    ensures |r.workers| == |s.workers|
  {
    if !Enabled(s, a) then s
    else match a
      case Call(call) => s.(world := s.world.(db := AfterCall(s.world.db, call)))
      case Crash => State(s.world.(streaks := map[]), seq(|s.workers|, _ => Idle))
      case _ =>
        var (world, worker) := StepWorker(s, a, n);
        State(world, s.workers[a.w := worker])
  }

  ghost function Exec(s: State, acts: seq<Action>, n: nat): (r: State)
    ensures |r.workers| == |s.workers|
  {
    if acts == [] then s else Next(Exec(s, Init(acts), n), Last(acts), n)
  }

  lemma {:induction false} ExecConcat(s: State, first: seq<Action>, second: seq<Action>, n: nat)
    ensures Exec(s, first + second, n) == Exec(Exec(s, first, n), second, n)
  {
    if second == [] {
      assert first + second == first;
    } else {
      assert Init(first + second) == first + Init(second);
      ExecConcat(s, first, Init(second), n);
    }
  }

  // ---- What each step touches ----

  /**
    * Only a write and the API touch the tables, only an evaluation and a restart the streaks, and a worker's
    * step no other worker. A failed query ends the message with nothing done; a restart keeps the tables only.
    */
  lemma {:induction false} StepFrames(s: State, a: Action, n: nat)
    ensures var after := Next(s, a, n);
            && (!a.Write? && !a.Call? ==> after.world.db == s.world.db)
            && (a.Write? ==> after.world.db == s.world.db.(alerts := after.world.db.alerts))
            && (!a.Evaluate? && !a.Crash? ==> after.world.streaks == s.world.streaks)
            && (IsWorkerStep(a) ==>
                  forall v :: 0 <= v < |s.workers| && v != a.w ==> after.workers[v] == s.workers[v])
            && (Enabled(s, a) && ((a.LoadRules? && a.rules.None?) || (a.LoadActive? && !a.ok)) ==>
                  after.workers[a.w] == Idle && after.world == s.world)
            && (a.Crash? ==> after.world.streaks == map[] && forall v :: 0 <= v < |s.workers| ==> after.workers[v] == Idle)
  {
  }

  /** What the active query leaves a worker with: its message, its rules, and the rules that then had an unresolved alert. */
  lemma SnapshotTaken(s: State, w: nat, n: nat)
    requires Enabled(s, LoadActive(w, true))
    ensures var p, p' := s.workers[w], Next(s, LoadActive(w, true), n).workers[w];
            && p' == Evaluating(p.m, p.rules, p'.active)
            && forall id :: id in p'.active <==>
                 exists i :: 0 <= i < |s.world.db.alerts|
                             && s.world.db.alerts[i].device == p.m.device && Unresolved(s.world.db.alerts[i], id)
  {
    var rows, device := s.world.db.alerts, s.workers[w].m.device;
    forall id
      ensures id in ActiveRuleIds(rows, device) <==>
              exists i :: 0 <= i < |rows| && rows[i].device == device && Unresolved(rows[i], id)
    {
      if i :| 0 <= i < |rows| && rows[i].device == device && Unresolved(rows[i], id) {
        assert rows[i].Active() && rows[i].rule == id;
      }
      if i :| 0 <= i < |rows| && rows[i].device == device && rows[i].Active() && rows[i].rule == id {
        assert Unresolved(rows[i], id);
      }
    }
  }

  /** An evaluation goes by that snapshot and the streaks, whatever the tables have become since. */
  lemma EvaluationGoesBySnapshot(s: State, t: State, w: nat, n: nat)
    requires Enabled(s, Evaluate(w)) && w < |t.workers| && t.workers[w] == s.workers[w]
    requires t.world.streaks == s.world.streaks
    ensures Next(t, Evaluate(w), n).workers[w] == Next(s, Evaluate(w), n).workers[w]
    ensures Next(t, Evaluate(w), n).world.streaks == Next(s, Evaluate(w), n).world.streaks
  {
  }

  // ---- What every step keeps ----

  /** What a worker holds belongs to the device of its message. */
  ghost predicate WorkerOk(owner: map<Id, Id>, p: Worker) {
    match p
    case Idle => true
    case LoadingRules(_) => true
    case LoadingActive(m, rules) =>
      DistinctIds(rules) && forall i :: 0 <= i < |rules| ==> Owned(owner, rules[i].id, m.device)
    case Evaluating(m, rules, _) =>
      DistinctIds(rules) && forall i :: 0 <= i < |rules| ==> Owned(owner, rules[i].id, m.device)
    case Applying(m, ds, c) =>
      && DistinctDecisions(ds) && c.Running? && ValidCursor(c, |ds|)
      && forall i :: 0 <= i < |ds| ==> Owned(owner, ds[i].rule.id, m.device)
  }

  ghost predicate Inv(s: State) {
    Consistent(s.world.db) && forall w :: 0 <= w < |s.workers| ==> WorkerOk(s.world.db.owner, s.workers[w])
  }

  lemma WorkerOkStep(s: State, a: Action, n: nat)
    requires Inv(s) && IsWorkerStep(a) && Enabled(s, a)
    ensures WorkerOk(s.world.db.owner, StepWorker(s, a, n).1)
    ensures StepWorker(s, a, n).0.db.owner == s.world.db.owner
    ensures StepWorker(s, a, n).0.db.rules == s.world.db.rules
    ensures Consistent(StepWorker(s, a, n).0.db)
  {
    var db := s.world.db;
    match a
    case Dequeue(w, m) =>
    case LoadRules(w, rules) =>
      if rules.Some? {
        forall i | 0 <= i < |rules.value| ensures Owned(db.owner, rules.value[i].id, s.workers[w].m.device) {
          assert EnabledRule(db, s.workers[w].m.device, rules.value[i]);
        }
      }
    case LoadActive(w, ok) => assert WorkerOk(db.owner, s.workers[w]);
    case Evaluate(w) =>
      var p := s.workers[w];
      assert WorkerOk(db.owner, p);
      EvaluatedWorkerOk(db.owner, p, s.world.streaks, n);
    case Write(w, o) =>
      var p := s.workers[w];
      assert WorkerOk(db.owner, p);
      if !o.Rejected? {
        ConsistentWrite(db, p.m, p.decisions[p.cursor.next]);
      }
  }

  lemma EvaluatedWorkerOk(owner: map<Id, Id>, p: Worker, streaks: map<Id, BreachState>, n: nat)
    requires p.Evaluating? && WorkerOk(owner, p)
    ensures WorkerOk(owner, StartApplying(p.m, EvaluateAll(p.rules, p.m.readings, p.active, streaks, n).decisions))
  {
    var ds := EvaluateAll(p.rules, p.m.readings, p.active, streaks, n).decisions;
    DecisionsAreDistinct(p.rules, p.m.readings, p.active, streaks, n);
    DecisionsAreListed(p.rules, p.m.readings, p.active, streaks, n);
    forall i | 0 <= i < |ds| ensures Owned(owner, ds[i].rule.id, p.m.device) {
      assert ds[i] in ds;
    }
  }

  lemma ConsistentWrite(db: Tables, m: Message, d: RuleDecision)
    requires Consistent(db) && Owned(db.owner, d.rule.id, m.device) && CanCommit(db, d)
    ensures Consistent(db.(alerts := ApplyOne(db.alerts, m.device, d, m.at)))
  {
    if d.decision.CreateAlert? {
      ConsistentApplyOne(db, m.device, d, m.at);
    }
  }

  lemma InvNext(s: State, a: Action, n: nat)
    requires Inv(s)
    ensures Inv(Next(s, a, n))
    ensures forall id :: id in s.world.db.owner ==>
              id in Next(s, a, n).world.db.owner && Next(s, a, n).world.db.owner[id] == s.world.db.owner[id]
  {
    if Enabled(s, a) {
      match a
      case Call(call) =>
        ConsistentCall(s.world.db, call);
        forall w | 0 <= w < |s.workers| ensures WorkerOk(AfterCall(s.world.db, call).owner, s.workers[w]) {
          assert WorkerOk(s.world.db.owner, s.workers[w]);
        }
      case Crash =>
      case _ => WorkerOkStep(s, a, n);
    }
  }

  lemma {:induction false} InvExec(s: State, acts: seq<Action>, n: nat)
    requires Inv(s)
    ensures Inv(Exec(s, acts, n))
  {
    if acts != [] {
      InvExec(s, Init(acts), n);
      InvNext(Exec(s, Init(acts), n), Last(acts), n);
    }
  }
}
