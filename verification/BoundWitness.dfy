/** Runs that reach the bound on active alerts, for every pool size, so the bound is exact. */
module BoundWitness {
  import opened AlertTypes
  import opened AlertTable
  import opened RuleEngine
  import opened SerialRuns
  import opened Protocol
  import opened ActiveBound

  const DEVICE: Id := "d"
  const FIRST := Rule("a", "m", Gt, 0.0, "warning")
  const SECOND := Rule("b", "m", Gt, 0.0, "critical")
  const RULES := [FIRST, SECOND]
  const MSG := Message(DEVICE, map["m" := 1.0], 0)
  const CREATES := [RuleDecision(FIRST, CreateAlert, 1.0), RuleDecision(SECOND, CreateAlert, 1.0)]

  /** One device with two rules that every reading breaches. */
  const TABLES := Tables(
    {DEVICE}, {},
    map["a" := RuleRow(DEVICE, "m", Gt, 0.0, "warning", true), "b" := RuleRow(DEVICE, "m", Gt, 0.0, "critical", true)],
    map["a" := DEVICE, "b" := DEVICE],
    [])

  function Streaks(j: nat): map<Id, BreachState> {
    if j == 0 then map[] else map["a" := BreachState(j, true), "b" := BreachState(j, true)]
  }

  lemma RulesAreListed(alerts: seq<Alert>)
    ensures ListsEnabledRules(TABLES.(alerts := alerts), DEVICE, RULES)
  {
    assert RULES[0].id == "a" && RULES[1].id == "b";
  }

  /** Each breaching message lengthens both streaks, and from the n-th on asks for both alerts. */
  lemma EvaluationOfBreach(j: nat, n: nat)
    ensures EvaluateAll(RULES, MSG.readings, {}, Streaks(j), n) ==
            Evaluation(if j + 1 >= n then CREATES else [], Streaks(j + 1))
  {
    var e0 := Evaluation([], Streaks(j));
    assert Init(RULES) == [FIRST] && Init([FIRST]) == [];
    var e1 := EvaluateOne(FIRST, MSG.readings, {}, e0, n);
    assert EvaluateAll([FIRST], MSG.readings, {}, Streaks(j), n) == e1;
    var e2 := EvaluateOne(SECOND, MSG.readings, {}, e1, n);
    assert e2.streaks == Streaks(j + 1);
  }

  /** Workers before `i` are in state `p`, the others in state `q`. */
  function Pool(c: nat, i: nat, p: Worker, q: Worker): (r: seq<Worker>)
    ensures |r| == c
  {
    seq(c, w => if w < i then p else q)
  }

  const READY := Evaluating(MSG, RULES, {})
  const WRITING := Applying(MSG, CREATES, Running(1, 0))

  function At(alerts: seq<Alert>, streak: nat, workers: seq<Worker>): State {
    State(World(TABLES.(alerts := alerts), Streaks(streak)), workers)
  }

  // ---- Single steps, on any pool ----

  /** A worker takes a message as far as its snapshot while the table is empty. */
  lemma TakesSnapshot(streak: nat, workers: seq<Worker>, w: nat, n: nat)
    requires w < |workers| && workers[w].Idle?
    ensures Exec(At([], streak, workers), Fetch(w), n) == At([], streak, workers[w := READY])
  {
    RulesAreListed([]);
    var s0 := At([], streak, workers);
    var s1 := At([], streak, workers[w := LoadingRules(MSG)]);
    var s2 := At([], streak, workers[w := LoadingActive(MSG, RULES)]);
    var s3 := At([], streak, workers[w := READY]);
    var acts := Fetch(w);
    assert Next(s0, acts[0], n) == s1;
    assert s1.workers[w := LoadingActive(MSG, RULES)] == s2.workers;
    assert Next(s1, acts[1], n) == s2;
    assert ActiveRuleIds([], DEVICE) == {};
    assert s2.workers[w := READY] == s3.workers;
    assert Next(s2, acts[2], n) == s3;
    ThreeSteps(s0, acts, n);
  }

  function Fetch(w: nat): seq<Action> {
    [Dequeue(w, MSG), LoadRules(w, Some(RULES)), LoadActive(w, true)]
  }

  lemma NoSteps(s: State, n: nat)
    ensures Exec(s, [], n) == s
  {
  }

  lemma OneStep(s: State, a: Action, n: nat)
    ensures Exec(s, [a], n) == Next(s, a, n)
  {
    assert Init([a]) == [];
  }

  lemma ThreeSteps(s: State, acts: seq<Action>, n: nat)
    requires |acts| == 3
    ensures Exec(s, acts, n) == Next(Next(Next(s, acts[0], n), acts[1], n), acts[2], n)
  {
    assert acts == [acts[0]] + [acts[1]] + [acts[2]];
    ExecConcat(s, [acts[0]] + [acts[1]], [acts[2]], n);
    ExecConcat(s, [acts[0]], [acts[1]], n);
    OneStep(s, acts[0], n);
    OneStep(Next(s, acts[0], n), acts[1], n);
    OneStep(Next(Next(s, acts[0], n), acts[1], n), acts[2], n);
  }

  lemma Evaluates(streak: nat, workers: seq<Worker>, w: nat, n: nat)
    requires w < |workers| && workers[w] == READY
    ensures Exec(At([], streak, workers), [Evaluate(w)], n) ==
            At([], streak + 1, workers[w := if streak + 1 >= n then WRITING else Idle])
  {
    EvaluationOfBreach(streak, n);
    OneStep(At([], streak, workers), Evaluate(w), n);
  }

  // ---- Writing, once or three times over ----

  const ROW_A := NewAlert(CREATES[0], DEVICE, 0)
  const ROW_B := NewAlert(CREATES[1], DEVICE, 0)

  /** The rows a worker adds: both alerts once, or the first alert in each of three attempts. */
  function Added(k: nat): seq<Alert> {
    if k == 1 then [ROW_A, ROW_B] else [ROW_A, ROW_A, ROW_A]
  }

  function HalfWrites(w: nat): seq<Action> {
    [Write(w, Committed), Write(w, Rejected)]
  }

  function Writes(w: nat, k: nat): seq<Action> {
    if k == 1 then [Write(w, Committed), Write(w, Committed)]
    else HalfWrites(w) + HalfWrites(w) + HalfWrites(w)
  }

  lemma TwoWrites(alerts: seq<Alert>, streak: nat, workers: seq<Worker>, w: nat, attempt: nat, o: Outcome, n: nat)
    requires w < |workers| && 1 <= attempt <= 3 && workers[w] == Applying(MSG, CREATES, Running(attempt, 0))
    requires !o.Unacknowledged?
    ensures Exec(At(alerts, streak, workers), [Write(w, Committed), Write(w, o)], n) ==
            At(alerts + [ROW_A] + (if o.Rejected? then [] else [ROW_B]), streak,
               workers[w := if o.Committed? || attempt == 3 then Idle else Applying(MSG, CREATES, Running(attempt + 1, 0))])
  {
    hide Next, Exec;
    var s := At(alerts, streak, workers);
    var midway := workers[w := Applying(MSG, CREATES, Running(attempt, 1))];
    var mid := At(alerts + [ROW_A], streak, midway);
    FirstWrite(alerts, streak, workers, w, attempt, n);
    SecondWrite(alerts + [ROW_A], streak, midway, w, attempt, o, n);
    var acts := [Write(w, Committed), Write(w, o)];
    assert acts == [acts[0]] + [acts[1]];
    ExecConcat(s, [acts[0]], [acts[1]], n);
    OneStep(s, acts[0], n);
    OneStep(mid, acts[1], n);
    var last := if o.Committed? || attempt == 3 then Idle else Applying(MSG, CREATES, Running(attempt + 1, 0));
    assert midway[w := last] == workers[w := last];
  }

  lemma FirstWrite(alerts: seq<Alert>, streak: nat, workers: seq<Worker>, w: nat, attempt: nat, n: nat)
    requires w < |workers| && 1 <= attempt <= 3 && workers[w] == Applying(MSG, CREATES, Running(attempt, 0))
    ensures Next(At(alerts, streak, workers), Write(w, Committed), n) ==
            At(alerts + [ROW_A], streak, workers[w := Applying(MSG, CREATES, Running(attempt, 1))])
  {
  }

  lemma SecondWrite(alerts: seq<Alert>, streak: nat, workers: seq<Worker>, w: nat, attempt: nat, o: Outcome, n: nat)
    requires w < |workers| && 1 <= attempt <= 3 && workers[w] == Applying(MSG, CREATES, Running(attempt, 1))
    requires !o.Unacknowledged?
    ensures Next(At(alerts, streak, workers), Write(w, o), n) ==
            At(alerts + (if o.Rejected? then [] else [ROW_B]), streak,
               workers[w := if o.Committed? || attempt == 3 then Idle else Applying(MSG, CREATES, Running(attempt + 1, 0))])
  {
    assert alerts + [] == alerts;
  }

  lemma WritesAll(alerts: seq<Alert>, streak: nat, workers: seq<Worker>, w: nat, k: nat, n: nat)
    requires w < |workers| && workers[w] == WRITING && (k == 1 || k == 3)
    ensures Exec(At(alerts, streak, workers), Writes(w, k), n) == At(alerts + Added(k), streak, workers[w := Idle])
  {
    hide Next, Exec;
    var s := At(alerts, streak, workers);
    if k == 1 {
      TwoWrites(alerts, streak, workers, w, 1, Committed, n);
      assert alerts + [ROW_A] + [ROW_B] == alerts + Added(1);
    } else {
      var pair := HalfWrites(w);
      var w2 := workers[w := Applying(MSG, CREATES, Running(2, 0))];
      var w3 := workers[w := Applying(MSG, CREATES, Running(3, 0))];
      assert w2[w := Applying(MSG, CREATES, Running(3, 0))] == w3 && w3[w := Idle] == workers[w := Idle];
      ExecConcat(s, pair + pair, pair, n);
      ExecConcat(s, pair, pair, n);
      TwoWrites(alerts, streak, workers, w, 1, Rejected, n);
      assert alerts + [ROW_A] + [] == alerts + [ROW_A];
      TwoWrites(alerts + [ROW_A], streak, w2, w, 2, Rejected, n);
      assert alerts + [ROW_A] + [ROW_A] + [] == alerts + [ROW_A, ROW_A];
      TwoWrites(alerts + [ROW_A, ROW_A], streak, w3, w, 3, Rejected, n);
      assert alerts + [ROW_A, ROW_A] + [ROW_A] + [] == alerts + Added(3);
    }
  }

  // ---- Phases over the whole pool ----

  lemma PoolTurnsOver(c: nat, p: Worker, q: Worker, r: Worker)
    ensures Pool(c, c, p, q) == Pool(c, 0, r, p)
    ensures Pool(c, 0, p, q) == Pool(c, 0, r, q)
  {
  }

  lemma Chain(s: State, first: seq<Action>, t: State, second: seq<Action>, u: State, n: nat)
    requires Exec(s, first, n) == t && Exec(t, second, n) == u
    ensures Exec(s, first + second, n) == u
  {
    ExecConcat(s, first, second, n);
  }

  /** A write that reports an error has had no effect. */
  predicate Straight(a: Action) {
    a.Write? ==> !a.outcome.Unacknowledged?
  }

  /** Steps of the first `c` workers only, with errors only if k is 3, and those without effect. */
  ghost predicate Confined(acts: seq<Action>, c: nat, k: nat) {
    forall i :: 0 <= i < |acts| ==>
      IsWorkerStep(acts[i]) && acts[i].w < c && Straight(acts[i]) && (k == 1 ==> ErrorFree(acts[i]))
  }

  /** n - 1 messages, one after another, decide nothing. */
  lemma {:induction false} WarmUp(c: nat, j: nat, n: nat) returns (acts: seq<Action>)
    requires c >= 1 && j < n
    ensures Exec(At([], 0, Pool(c, 0, Idle, Idle)), acts, n) == At([], j, Pool(c, 0, Idle, Idle))
    ensures Confined(acts, c, 1)
  {
    hide Next, Exec;
    var idle := Pool(c, 0, Idle, Idle);
    if j == 0 {
      NoSteps(At([], 0, idle), n);
      acts := [];
    } else {
      var before := WarmUp(c, j - 1, n);
      TakesSnapshot(j - 1, idle, 0, n);
      Evaluates(j - 1, idle[0 := READY], 0, n);
      assert idle[0 := READY][0 := Idle] == idle;
      acts := before + (Fetch(0) + [Evaluate(0)]);
      Chain(At([], j - 1, idle), Fetch(0), At([], j - 1, idle[0 := READY]), [Evaluate(0)], At([], j, idle), n);
      Chain(At([], 0, idle), before, At([], j - 1, idle), Fetch(0) + [Evaluate(0)], At([], j, idle), n);
    }
  }

  /** Every worker takes its snapshot before any has written. */
  lemma {:induction false} AllFetch(c: nat, i: nat, streak: nat, n: nat) returns (acts: seq<Action>)
    requires i <= c
    ensures Exec(At([], streak, Pool(c, 0, READY, Idle)), acts, n) == At([], streak, Pool(c, i, READY, Idle))
    ensures Confined(acts, c, 1)
  {
    hide Next, Exec;
    if i == 0 {
      NoSteps(At([], streak, Pool(c, 0, READY, Idle)), n);
      acts := [];
    } else {
      var before := AllFetch(c, i - 1, streak, n);
      var pool := Pool(c, i - 1, READY, Idle);
      TakesSnapshot(streak, pool, i - 1, n);
      assert pool[i - 1 := READY] == Pool(c, i, READY, Idle);
      acts := before + Fetch(i - 1);
      Chain(At([], streak, Pool(c, 0, READY, Idle)), before, At([], streak, pool), Fetch(i - 1),
            At([], streak, Pool(c, i, READY, Idle)), n);
    }
  }

  lemma {:induction false} AllEvaluate(c: nat, i: nat, streak: nat, n: nat) returns (acts: seq<Action>)
    requires i <= c && streak + 1 >= n
    ensures Exec(At([], streak, Pool(c, 0, WRITING, READY)), acts, n) == At([], streak + i, Pool(c, i, WRITING, READY))
    ensures Confined(acts, c, 1)
  {
    hide Next, Exec;
    if i == 0 {
      NoSteps(At([], streak, Pool(c, 0, WRITING, READY)), n);
      acts := [];
    } else {
      var before := AllEvaluate(c, i - 1, streak, n);
      var pool := Pool(c, i - 1, WRITING, READY);
      Evaluates(streak + i - 1, pool, i - 1, n);
      assert pool[i - 1 := WRITING] == Pool(c, i, WRITING, READY);
      acts := before + [Evaluate(i - 1)];
      Chain(At([], streak, Pool(c, 0, WRITING, READY)), before, At([], streak + i - 1, pool), [Evaluate(i - 1)],
            At([], streak + i, Pool(c, i, WRITING, READY)), n);
    }
  }

  lemma {:induction false} AllWrite(c: nat, i: nat, streak: nat, k: nat, n: nat, total: nat)
    returns (acts: seq<Action>, alerts: seq<Alert>)
    requires i <= c && (k == 1 || k == 3) && total == k * i
    ensures Exec(At([], streak, Pool(c, 0, Idle, WRITING)), acts, n) == At(alerts, streak, Pool(c, i, Idle, WRITING))
    ensures ActiveCount(alerts, FIRST.id) == total
    ensures Confined(acts, c, k)
  {
    hide Next, Exec, Added, Writes, At, WRITING;
    if i == 0 {
      NoSteps(At([], streak, Pool(c, 0, Idle, WRITING)), n);
      acts, alerts := [], [];
    } else {
      var before, rows := AllWrite(c, i - 1, streak, k, n, total - k);
      var pool := Pool(c, i - 1, Idle, WRITING);
      assert pool[i - 1] == WRITING;
      assert pool[i - 1 := Idle] == Pool(c, i, Idle, WRITING);
      WritesConfined(i - 1, c, k);
      ConfinedConcat(before, Writes(i - 1, k), c, k);
      hide ActiveCount, Confined, Pool;
      WritesAll(rows, streak, pool, i - 1, k, n);
      acts, alerts := before + Writes(i - 1, k), rows + Added(k);
      Chain(At([], streak, Pool(c, 0, Idle, WRITING)), before, At(rows, streak, pool), Writes(i - 1, k),
            At(alerts, streak, Pool(c, i, Idle, WRITING)), n);
      AddedAreActive(rows, k);
    }
  }

  lemma WritesConfined(w: nat, c: nat, k: nat)
    requires w < c && (k == 1 || k == 3)
    ensures Confined(Writes(w, k), c, k)
  {
  }

  lemma ConfinedConcat(first: seq<Action>, second: seq<Action>, c: nat, k: nat)
    requires Confined(first, c, k) && Confined(second, c, k)
    ensures Confined(first + second, c, k)
  {
  }

  lemma OneMoreA(rows: seq<Alert>)
    ensures ActiveCount(rows + [ROW_A], FIRST.id) == ActiveCount(rows, FIRST.id) + 1
  {
    ActiveCountAppend(rows, ROW_A, FIRST.id);
  }

  lemma OneMoreB(rows: seq<Alert>)
    ensures ActiveCount(rows + [ROW_B], FIRST.id) == ActiveCount(rows, FIRST.id)
  {
    assert SECOND.id[0] != FIRST.id[0];
    ActiveCountAppend(rows, ROW_B, FIRST.id);
  }

  lemma AddedAreActive(rows: seq<Alert>, k: nat)
    requires k == 1 || k == 3
    ensures ActiveCount(rows + Added(k), FIRST.id) == ActiveCount(rows, FIRST.id) + k
  {
    hide ActiveCount;
    var r1 := rows + [ROW_A];
    OneMoreA(rows);
    if k == 1 {
      OneMoreB(r1);
      assert rows + Added(k) == r1 + [ROW_B];
    } else {
      OneMoreA(r1);
      OneMoreA(r1 + [ROW_A]);
      assert rows + Added(k) == r1 + [ROW_A] + [ROW_A];
    }
  }

  lemma StartIsQuiescent(c: nat)
    ensures Quiescent(At([], 0, Pool(c, 0, Idle, Idle)))
  {
  }

  /** Snapshots and evaluations of the whole pool, from streaks one short of the debounce. */
  lemma ArmAll(c: nat, n: nat) returns (acts: seq<Action>)
    requires n >= 1
    ensures Exec(At([], n - 1, Pool(c, 0, Idle, Idle)), acts, n) == At([], n - 1 + c, Pool(c, 0, Idle, WRITING))
    ensures Confined(acts, c, 1)
  {
    hide Next, Exec;
    PoolTurnsOver(c, Idle, Idle, READY);
    PoolTurnsOver(c, READY, Idle, WRITING);
    PoolTurnsOver(c, WRITING, READY, Idle);
    var fetch := AllFetch(c, c, n - 1, n);
    var evaluate := AllEvaluate(c, c, n - 1, n);
    acts := fetch + evaluate;
    Chain(At([], n - 1, Pool(c, 0, READY, Idle)), fetch,
          At([], n - 1, Pool(c, c, READY, Idle)), evaluate,
          At([], n - 1 + c, Pool(c, c, WRITING, READY)), n);
  }

  /** The bound on a pool of exactly c workers. */
  lemma PoolReachesBound(c: nat, k: nat, n: nat) returns (s: State, acts: seq<Action>)
    requires c >= 1 && n >= 1 && (k == 1 || k == 3)
    ensures Quiescent(s) && |s.workers| == c && s.world.db.alerts == [] && s.world.streaks == map[]
    ensures Confined(acts, c, k)
    ensures ActiveCount(Exec(s, acts, n).world.db.alerts, FIRST.id) == k * c
  {
    hide Next, Exec, Inv, ActiveCount;
    s := At([], 0, Pool(c, 0, Idle, Idle));
    StartIsQuiescent(c);
    var warm := WarmUp(c, n - 1, n);
    var arm := ArmAll(c, n);
    var write, alerts := AllWrite(c, c, n - 1 + c, k, n, k * c);
    acts := warm + (arm + write);
    var warmed := At([], n - 1, Pool(c, 0, Idle, Idle));
    var done := At(alerts, n - 1 + c, Pool(c, c, Idle, WRITING));
    Chain(warmed, arm, At([], n - 1 + c, Pool(c, 0, Idle, WRITING)), write, done, n);
    Chain(s, warm, warmed, arm + write, done, n);
  }

  // ---- Inside a larger pool ----

  function Idlers(extra: nat): seq<Worker> {
    seq(extra, _ => Idle)
  }

  /** The same state with more workers, none of which has anything to do. */
  function Widen(s: State, extra: nat): State {
    s.(workers := s.workers + Idlers(extra))
  }

  lemma WidenStep(s: State, a: Action, extra: nat, n: nat)
    requires IsWorkerStep(a) && a.w < |s.workers|
    ensures Next(Widen(s, extra), a, n) == Widen(Next(s, a, n), extra)
  {
    var t := Widen(s, extra);
    assert t.workers[a.w] == s.workers[a.w];
    assert Enabled(t, a) == Enabled(s, a);
    if Enabled(s, a) {
      assert StepWorker(t, a, n) == StepWorker(s, a, n);
      var p := StepWorker(s, a, n).1;
      assert t.workers[a.w := p] == s.workers[a.w := p] + Idlers(extra);
    }
  }

  lemma {:induction false} WidenRun(s: State, acts: seq<Action>, extra: nat, k: nat, n: nat)
    requires Confined(acts, |s.workers|, k)
    ensures Exec(Widen(s, extra), acts, n) == Widen(Exec(s, acts, n), extra)
  {
    hide Next;
    if acts != [] {
      WidenRun(s, Init(acts), extra, k, n);
      assert acts[|acts| - 1] == Last(acts);
      WidenStep(Exec(s, Init(acts), n), Last(acts), extra, n);
    }
  }

  lemma {:induction false} IdlersAreNotBusy(workers: seq<Worker>, extra: nat, device: Id)
    ensures BusyCount(workers + Idlers(extra), device) <= |workers|
  {
    var all := workers + Idlers(extra);
    if extra == 0 {
      assert all == workers;
      BusyAtMostWorkers(workers, device);
    } else {
      assert Init(all) == workers + Idlers(extra - 1) && Last(all) == Idle;
      IdlersAreNotBusy(workers, extra - 1, device);
    }
  }

  /** The extra workers stay idle, so no more than the original pool ever overlaps. */
  lemma {:induction false} WidenOverlap(s: State, acts: seq<Action>, extra: nat, k: nat, n: nat)
    requires Confined(acts, |s.workers|, k)
    ensures OverlapThroughout(Widen(s, extra), acts, |s.workers|, n)
  {
    WidenRun(s, acts, extra, k, n);
    hide Exec, Next;
    forall device ensures BusyCount(Exec(Widen(s, extra), acts, n).workers, device) <= |s.workers| {
      IdlersAreNotBusy(Exec(s, acts, n).workers, extra, device);
    }
    if acts != [] { WidenOverlap(s, Init(acts), extra, k, n); }
  }

  lemma WidenQuiescent(s: State, extra: nat)
    requires Quiescent(s)
    ensures Quiescent(Widen(s, extra))
  {
    hide Consistent;
    var t := Widen(s, extra);
    forall w | 0 <= w < |t.workers| ensures t.workers[w].Idle? {
      if w < |s.workers| { assert t.workers[w] == s.workers[w]; }
    }
  }

  /**
    * The bound is reached. For every pool of W workers, every overlap c up to W and every debounce there is a
    * run from empty tables and streaks, never with more than c messages of one device in hand, that ends with
    * exactly k * c active alerts of one rule: k = 1 without a single error, and k = 3 with errors that have
    * no effect, only because each retry starts the list over.
    */
  lemma {:induction false} BoundIsReached(W: nat, c: nat, k: nat, n: nat) returns (s: State, acts: seq<Action>)
    requires 1 <= c <= W && n >= 1 && (k == 1 || k == 3)
    ensures Quiescent(s) && |s.workers| == W && s.world.db.alerts == [] && s.world.streaks == map[]
    ensures OverlapThroughout(s, acts, c, n) && AttemptsAllowed(acts, k)
    ensures forall i :: 0 <= i < |acts| ==> Straight(acts[i])
    ensures ActiveCount(Exec(s, acts, n).world.db.alerts, FIRST.id) == k * c
  {
    hide Next, Exec, Quiescent, ActiveCount, OverlapThroughout;
    var pool;
    pool, acts := PoolReachesBound(c, k, n);
    s := Widen(pool, W - c);
    WidenQuiescent(pool, W - c);
    WidenOverlap(pool, acts, W - c, k, n);
    WidenRun(pool, acts, W - c, k, n);
  }

  /**
    * No run of a pool of `W` workers from empty tables, with at most `c` messages of one device in hand at a
    * time, gives a rule more than `bound` active alerts.
    */
  ghost predicate Guaranteed(W: nat, c: nat, k: nat, n: nat, bound: nat) {
    forall s: State, acts: seq<Action>, rule: Id ::
      Quiescent(s) && |s.workers| == W && s.world.db.alerts == []
      && AttemptsAllowed(acts, k) && OverlapThroughout(s, acts, c, n) ==>
        ActiveCount(Exec(s, acts, n).world.db.alerts, rule) <= bound
  }

  /**
    * The exact guarantee, for every pool: a bound on active alerts holds if and only if it is at least the
    * overlap times the attempts allowed. So "at most one" takes both: messages of one device that do not
    * overlap, and writes that do not error.
    */
  lemma {:induction false} ExactGuarantee(W: nat, c: nat, k: nat, n: nat, bound: nat)
    requires 1 <= c <= W && n >= 1 && (k == 1 || k == 3)
    ensures Guaranteed(W, c, k, n, bound) <==> k * c <= bound
  {
    hide Exec, Quiescent, ActiveCount, OverlapThroughout, AttemptsAllowed;
    if k * c <= bound {
      forall s: State, acts: seq<Action>, rule: Id
        | Quiescent(s) && |s.workers| == W && s.world.db.alerts == []
          && AttemptsAllowed(acts, k) && OverlapThroughout(s, acts, c, n)
        ensures ActiveCount(Exec(s, acts, n).world.db.alerts, rule) <= bound
      {
        BoundFromEmpty(s, acts, rule, k, c, n);
      }
    }
    if Guaranteed(W, c, k, n, bound) {
      var s, acts := BoundIsReached(W, c, k, n);
    }
  }

  lemma BoundFromEmpty(s: State, acts: seq<Action>, rule: Id, k: nat, c: nat, n: nat)
    requires Quiescent(s) && s.world.db.alerts == [] && AttemptsAllowed(acts, k) && OverlapThroughout(s, acts, c, n)
    ensures ActiveCount(Exec(s, acts, n).world.db.alerts, rule) <= k * c
  {
    hide Exec, OverlapThroughout, WorkerOk, Consistent;
    BudgetsIdle(s.workers, rule, k);
    ActiveAlertBound(s, acts, rule, k, c, n);
  }

  /** The exception in the conflict check is real: an alert inserted after the update can be found by the lookup, open. */
  lemma {:induction false} LateInsertLooksLikeConflict() returns (s: State, acts: seq<Action>, i: nat)
    ensures Inv(s) && !GuardMatches(s.world.db, i, false)
    ensures GuardMatches(Exec(s, acts, 1).world.db, i, false)
  {
    s, acts := BoundIsReached(1, 1, 1, 1);
    i := FindActiveRow(Exec(s, acts, 1).world.db.alerts, FIRST.id);
  }
}
