/**
  * Interleaved workers do what some serial run does, as long as messages of one device do not overlap:
  * same streaks, same rows, and on each device the same rows in the same order.
  */
module Serializability {
  import opened AlertTypes
  import opened AlertTable
  import opened RuleEngine
  import opened Retry
  import opened SerialRuns
  import opened Protocol
  import opened ActiveBound
  import opened DeviceView

  /**
    * How far a worker has got with its message, compared with the serial world `t` in which that message
    * has not happened yet. `script` records what the database has answered so far, and once the worker
    * writes, its device sees `t` with exactly that much of the message done.
    */
  ghost predicate Tracks(world: World, t: World, p: Worker, script: Script, n: nat) {
    match p
    case Idle => true
    case LoadingRules(m) => Agree(world, t, m.device)
    case LoadingActive(m, rules) =>
      && Agree(world, t, m.device) && rules != [] && ListsEnabledRules(t.db, m.device, rules)
      && script == Script(Some(rules), false, [])
    case Evaluating(m, rules, active) =>
      && Agree(world, t, m.device) && rules != [] && ListsEnabledRules(t.db, m.device, rules)
      && active == ActiveRuleIds(t.db.alerts, m.device) && script == Script(Some(rules), true, [])
    case Applying(m, ds, c) =>
      && Consults(script) && ListsEnabledRules(t.db, m.device, script.rules.value)
      && ds == EvaluationOf(t, m, script, n).decisions
      && c == CursorAfter(|ds|, script.outs)
      && Agree(world, Process(t, m, script, n), m.device)
  }

  ghost predicate NoneBusy(workers: seq<Worker>, device: Id) {
    forall w :: 0 <= w < |workers| ==> !Busy(workers[w], device)
  }

  /** The concurrent state `s` and the serial world `t` of the messages finished so far. */
  ghost predicate Sync(s: State, t: World, scripts: seq<Script>, n: nat) {
    && |scripts| == |s.workers|
    && SameRules(s.world, t) && Consistent(t.db) && AgreeOnUnowned(s.world, t)
    && (forall w :: 0 <= w < |s.workers| ==> Tracks(s.world, t, s.workers[w], scripts[w], n))
    && (forall device :: NoneBusy(s.workers, device) ==> Agree(s.world, t, device))
  }

  // ---- Overlap ----

  lemma {:induction false} BusyCounts(workers: seq<Worker>, w: nat, device: Id)
    requires w < |workers| && Busy(workers[w], device)
    ensures BusyCount(workers, device) >= 1
  {
    if w < |workers| - 1 { BusyCounts(Init(workers), w, device); }
  }

  lemma {:induction false} TwoBusy(workers: seq<Worker>, v: nat, w: nat, device: Id)
    requires v < w < |workers| && Busy(workers[v], device) && Busy(workers[w], device)
    ensures BusyCount(workers, device) >= 2
  {
    if w < |workers| - 1 {
      TwoBusy(Init(workers), v, w, device);
    } else {
      BusyCounts(Init(workers), v, device);
    }
  }

  lemma SoleWorker(s: State, v: nat, w: nat, device: Id)
    requires Overlap(s, 1) && v < |s.workers| && w < |s.workers| && v != w
    requires Busy(s.workers[w], device)
    ensures !Busy(s.workers[v], device)
  {
    if Busy(s.workers[v], device) {
      TwoBusy(s.workers, if v < w then v else w, if v < w then w else v, device);
    }
  }

  // ---- The worker that steps ----

  /** The device a worker step is about. */
  function StepDevice(s: State, a: Action): Id
    requires IsWorkerStep(a) && a.w < |s.workers| && (a.Dequeue? || !s.workers[a.w].Idle?)
  {
    if a.Dequeue? then a.m.device else s.workers[a.w].m.device
  }

  lemma EvaluateLeavesOthers(s: State, w: nat, n: nat, other: Id)
    requires Inv(s) && Enabled(s, Evaluate(w)) && other != s.workers[w].m.device
    ensures Agree(s.world, StepWorker(s, Evaluate(w), n).0, other)
  {
    hide EvaluateAll, Consistent, DeviceRows;
    var p := s.workers[w];
    assert WorkerOk(s.world.db.owner, p);
    assert ListsOwned(s.world.db, p.m.device, p.rules);
    var after := StepWorker(s, Evaluate(w), n).0;
    forall id | Owned(s.world.db.owner, id, other) ensures SameStreak(s.world.streaks, after.streaks, id) {
      EvaluationLeavesOthers(s.world.db, p.m.device, p.rules, p.m.readings, p.active, s.world.streaks, n, id);
    }
  }

  lemma WriteLeavesOthers(s: State, a: Action, n: nat, other: Id)
    requires Inv(s) && a.Write? && Enabled(s, a) && other != s.workers[a.w].m.device
    ensures Agree(s.world, StepWorker(s, a, n).0, other)
  {
    hide ApplyOne, DeviceRows, Advance;
    var p := s.workers[a.w];
    assert WorkerOk(s.world.db.owner, p);
    assert Owned(s.world.db.owner, p.decisions[p.cursor.next].rule.id, p.m.device);
    StatementLeavesOthers(s.world.db, p.m.device, p.decisions[p.cursor.next], p.m.at, other);
  }

  /** A worker step is invisible to every other device. */
  lemma StepLeavesOthers(s: State, a: Action, n: nat, other: Id)
    requires Inv(s) && IsWorkerStep(a) && Enabled(s, a) && other != StepDevice(s, a)
    ensures Agree(s.world, StepWorker(s, a, n).0, other)
  {
    match a
    case Dequeue(w, m) =>
    case LoadRules(w, rules) =>
    case LoadActive(w, ok) =>
    case Evaluate(w) => EvaluateLeavesOthers(s, w, n, other);
    case Write(w, o) => WriteLeavesOthers(s, a, n, other);
  }

  lemma StepLeavesUnowned(s: State, a: Action, n: nat)
    requires Inv(s) && IsWorkerStep(a) && Enabled(s, a)
    ensures AgreeOnUnowned(s.world, StepWorker(s, a, n).0)
    ensures SameRules(s.world, StepWorker(s, a, n).0)
  {
    if a.Evaluate? {
      var p := s.workers[a.w];
      assert WorkerOk(s.world.db.owner, p);
      assert ListsOwned(s.world.db, p.m.device, p.rules);
      forall id | id !in s.world.db.owner ensures SameStreak(s.world.streaks, StepWorker(s, a, n).0.streaks, id) {
        EvaluationLeavesOthers(s.world.db, p.m.device, p.rules, p.m.readings, p.active, s.world.streaks, n, id);
      }
    }
  }

  /** What the stepping worker's message becomes: still in hand, tracked by a script, or a finished event. */
  ghost predicate Follows(world: World, t: World, m: Message, p: Worker, script: Script, n: nat) {
    if p.Idle? then
      Possible(t, Telemetry(m, script), n) && Agree(world, Process(t, m, script, n), m.device)
    else p.m == m && Tracks(world, t, p, script, n)
  }

  const NO_ANSWERS := Script(None, false, [])

  /** What the database has answered about a message, after one more step of its worker. */
  function Answered(script: Script, a: Action): Script {
    match a
    case Dequeue(_, _) => NO_ANSWERS
    case LoadRules(_, rules) => Script(rules, false, [])
    case LoadActive(_, ok) => script.(activeOk := ok)
    case Write(_, o) => script.(outs := script.outs + [o])
    case _ => script
  }

  lemma OwnQueries(s: State, t: World, a: Action, script: Script, n: nat)
    requires (a.LoadRules? || a.LoadActive?) && Enabled(s, a) && SameRules(s.world, t)
    requires Tracks(s.world, t, s.workers[a.w], script, n)
    ensures Follows(StepWorker(s, a, n).0, t, s.workers[a.w].m, StepWorker(s, a, n).1, Answered(script, a), n)
  {
    if a.LoadActive? {
      SnapshotSeesOwnRows(s.world.db.alerts, t.db.alerts, s.workers[a.w].m.device);
    }
  }

  lemma OwnEvaluate(s: State, t: World, a: Action, script: Script, n: nat)
    requires a.Evaluate? && Enabled(s, a) && Inv(s) && SameRules(s.world, t) && Consistent(t.db)
    requires Tracks(s.world, t, s.workers[a.w], script, n)
    ensures Follows(StepWorker(s, a, n).0, t, s.workers[a.w].m, StepWorker(s, a, n).1, Answered(script, a), n)
  {
    var p := s.workers[a.w];
    ListedAreOwned(t.db, p.m.device, p.rules);
    AgreeSymmetric(s.world, t, p.m.device);
    EvaluationsAgree(t, s.world, p.m, p.rules, n);
    var after := StepWorker(s, a, n).0;
    var done := Process(t, p.m, script, n);
    assert done.db.alerts == t.db.alerts;
    forall id | Owned(after.db.owner, id, p.m.device) ensures SameStreak(after.streaks, done.streaks, id) {
      assert Owned(t.db.owner, id, p.m.device);
    }
  }

  lemma OwnWrite(s: State, t: World, a: Action, script: Script, n: nat)
    requires a.Write? && Enabled(s, a) && SameRules(s.world, t)
    requires Tracks(s.world, t, s.workers[a.w], script, n)
    ensures Follows(StepWorker(s, a, n).0, t, s.workers[a.w].m, StepWorker(s, a, n).1, Answered(script, a), n)
  {
    hide EvaluateAll, ApplyOne, DeviceRows, ListsEnabledRules, ActiveRuleIds;
    var p := s.workers[a.w];
    var r := Answered(script, a);
    var ds := p.decisions;
    var done, next := Process(t, p.m, script, n), Process(t, p.m, r, n);
    assert Init(r.outs) == script.outs && Last(r.outs) == a.outcome;
    assert EvaluationOf(t, p.m, r, n) == EvaluationOf(t, p.m, script, n);
    CursorIsProgress(t.db.alerts, p.m.device, p.m.at, ds, script.outs);
    StatementSeesOwnRows(s.world.db.alerts, p.m.device, ds[p.cursor.next], p.m.at);
    StatementSeesOwnRows(done.db.alerts, p.m.device, ds[p.cursor.next], p.m.at);
    assert next.db.alerts == WriteOne(Progress(done.db.alerts, p.cursor), p.m.device, p.m.at, ds, a.outcome).alerts;
    assert CursorAfter(|ds|, r.outs) == Advance(p.cursor, |ds|, a.outcome);
    var after := StepWorker(s, a, n).0;
    assert Agree(after, next, p.m.device) by {
      assert DeviceRows(after.db.alerts, p.m.device) == DeviceRows(next.db.alerts, p.m.device);
      assert after.streaks == s.world.streaks && next.streaks == done.streaks;
    }
  }

  /** The stepping worker stays in step with the serial world, and a finished message becomes a serial event. */
  lemma OwnStep(s: State, t: World, a: Action, script: Script, n: nat)
    requires IsWorkerStep(a) && !a.Dequeue? && Enabled(s, a) && Inv(s) && SameRules(s.world, t) && Consistent(t.db)
    requires Tracks(s.world, t, s.workers[a.w], script, n)
    ensures Follows(StepWorker(s, a, n).0, t, s.workers[a.w].m, StepWorker(s, a, n).1, Answered(script, a), n)
  {
    match a
    case LoadRules(_, _) => OwnQueries(s, t, a, script, n);
    case LoadActive(_, _) => OwnQueries(s, t, a, script, n);
    case Evaluate(_) => OwnEvaluate(s, t, a, script, n);
    case Write(_, _) => OwnWrite(s, t, a, script, n);
  }

  // ---- The other workers ----

  /** A worker of another device keeps its place when both worlds change invisibly to it. */
  lemma OthersTrack(world: World, t: World, world': World, t': World, p: Worker, script: Script, n: nat)
    requires Tracks(world, t, p, script, n) && !p.Idle? && Consistent(t.db)
    requires Agree(world, world', p.m.device) && Agree(t, t', p.m.device)
    ensures Tracks(world', t', p, script, n)
  {
    hide EvaluateAll, DeviceRows, RunWrites, ActiveRuleIds, CursorAfter, Consistent;
    var device := p.m.device;
    AgreeSymmetric(world, world', device);
    SnapshotSeesOwnRows(t.db.alerts, t'.db.alerts, device);
    if p.Applying? {
      ListedAreOwned(t.db, device, script.rules.value);
      ProcessAgrees(t, t', p.m, script, n);
      AgreeTransitive(world', world, Process(t, p.m, script, n), device);
      AgreeTransitive(world', Process(t, p.m, script, n), Process(t', p.m, script, n), device);
    } else {
      AgreeTransitive(world', world, t, device);
      AgreeTransitive(world', t, t', device);
    }
  }

  /** The device of a fresh message was free, so it sees the serial world. */
  lemma DequeuedDeviceWasFree(s: State, a: Action, n: nat)
    requires a.Dequeue? && Enabled(s, a) && Overlap(Next(s, a, n), 1)
    ensures NoneBusy(s.workers, a.m.device)
  {
    var after := Next(s, a, n);
    forall v | 0 <= v < |s.workers| ensures !Busy(s.workers[v], a.m.device) {
      if v != a.w { SoleWorker(after, v, a.w, a.m.device); }
    }
  }

  /** The serial world after a step: unchanged, or with the message the step finished. */
  ghost function SerialAfter(s: State, t: World, a: Action, r: Script, n: nat): World
    requires IsWorkerStep(a) && Enabled(s, a)
  {
    if !a.Dequeue? && StepWorker(s, a, n).1.Idle? then Process(t, s.workers[a.w].m, r, n) else t
  }

  lemma SerialAfterLeavesOthers(s: State, t: World, a: Action, r: Script, n: nat, other: Id)
    requires IsWorkerStep(a) && Enabled(s, a) && Consistent(t.db) && other != StepDevice(s, a)
    requires !a.Dequeue? ==> Follows(StepWorker(s, a, n).0, t, s.workers[a.w].m, StepWorker(s, a, n).1, r, n)
    ensures Agree(t, SerialAfter(s, t, a, r, n), other)
  {
    if !a.Dequeue? && StepWorker(s, a, n).1.Idle? {
      ProcessLeavesOthers(t, s.workers[a.w].m, r, n, other);
    }
  }

  lemma SerialAfterConsistent(s: State, t: World, a: Action, r: Script, n: nat)
    requires IsWorkerStep(a) && Enabled(s, a) && Consistent(t.db)
    requires !a.Dequeue? ==> Follows(StepWorker(s, a, n).0, t, s.workers[a.w].m, StepWorker(s, a, n).1, r, n)
    ensures var t' := SerialAfter(s, t, a, r, n);
            Consistent(t'.db) && SameRules(t, t') && AgreeOnUnowned(t, t')
  {
    if !a.Dequeue? && StepWorker(s, a, n).1.Idle? {
      ConsistentNext(t, Telemetry(s.workers[a.w].m, r), n);
      ProcessLeavesUnowned(t, s.workers[a.w].m, r, n);
    }
  }

  /** Each worker step keeps the concurrent state and the serial world in step. */
  lemma SyncStep(s: State, t: World, scripts: seq<Script>, a: Action, n: nat)
    requires Sync(s, t, scripts, n) && Inv(s) && Overlap(s, 1) && Overlap(Next(s, a, n), 1)
    requires IsWorkerStep(a) && Enabled(s, a)
    ensures var r := Answered(scripts[a.w], a);
            && (!a.Dequeue? ==> Follows(StepWorker(s, a, n).0, t, s.workers[a.w].m, StepWorker(s, a, n).1, r, n))
            && Sync(Next(s, a, n), SerialAfter(s, t, a, r, n), scripts[a.w := r], n)
  {
    var w := a.w;
    var r := Answered(scripts[w], a);
    if a.Dequeue? {
      DequeuedDeviceWasFree(s, a, n);
    } else {
      OwnStep(s, t, a, scripts[w], n);
    }
    var s' := Next(s, a, n);
    var t' := SerialAfter(s, t, a, r, n);
    SerialAfterConsistent(s, t, a, r, n);
    StepLeavesUnowned(s, a, n);
    UnownedStaySame(s.world, t, s'.world, t');
    forall v | 0 <= v < |s.workers| ensures Tracks(s'.world, t', s'.workers[v], scripts[w := r][v], n) {
      if v != w && !s.workers[v].Idle? {
        OtherWorker(s, t, scripts, a, r, n, v);
      }
    }
    forall other | NoneBusy(s'.workers, other) ensures Agree(s'.world, t', other) {
      FreeDevice(s, t, scripts, a, r, n, other);
    }
  }

  lemma UnownedStaySame(world: World, t: World, world': World, t': World)
    requires SameRules(world, t) && SameRules(world, world') && SameRules(t, t')
    requires AgreeOnUnowned(world, t) && AgreeOnUnowned(world, world') && AgreeOnUnowned(t, t')
    ensures SameRules(world', t') && AgreeOnUnowned(world', t')
  {
  }

  lemma OtherWorker(s: State, t: World, scripts: seq<Script>, a: Action, r: Script, n: nat, v: nat)
    requires Sync(s, t, scripts, n) && Inv(s) && Overlap(s, 1) && Overlap(Next(s, a, n), 1)
    requires IsWorkerStep(a) && Enabled(s, a) && v < |s.workers| && v != a.w && !s.workers[v].Idle?
    requires !a.Dequeue? ==> Follows(StepWorker(s, a, n).0, t, s.workers[a.w].m, StepWorker(s, a, n).1, r, n)
    ensures Tracks(Next(s, a, n).world, SerialAfter(s, t, a, r, n), s.workers[v], scripts[v], n)
  {
    var other := s.workers[v].m.device;
    assert other != StepDevice(s, a) by {
      if a.Dequeue? {
        DequeuedDeviceWasFree(s, a, n);
      } else {
        SoleWorker(s, a.w, v, other);
      }
    }
    StepLeavesOthers(s, a, n, other);
    SerialAfterLeavesOthers(s, t, a, r, n, other);
    assert Tracks(s.world, t, s.workers[v], scripts[v], n);
    OthersTrack(s.world, t, Next(s, a, n).world, SerialAfter(s, t, a, r, n), s.workers[v], scripts[v], n);
  }

  lemma FreeDevice(s: State, t: World, scripts: seq<Script>, a: Action, r: Script, n: nat, other: Id)
    requires Sync(s, t, scripts, n) && Inv(s) && IsWorkerStep(a) && Enabled(s, a)
    requires NoneBusy(Next(s, a, n).workers, other)
    requires !a.Dequeue? ==> Follows(StepWorker(s, a, n).0, t, s.workers[a.w].m, StepWorker(s, a, n).1, r, n)
    ensures Agree(Next(s, a, n).world, SerialAfter(s, t, a, r, n), other)
  {
    hide EvaluateAll, Agree, Consistent, ListsEnabledRules, WriteOne, Tracks, Process;
    var s', t' := Next(s, a, n), SerialAfter(s, t, a, r, n);
    assert s'.workers[a.w] == StepWorker(s, a, n).1 && s'.world == StepWorker(s, a, n).0;
    assert !Busy(s'.workers[a.w], other);
    if other != StepDevice(s, a) {
      assert NoneBusy(s.workers, other) by {
        forall v | 0 <= v < |s.workers| ensures !Busy(s.workers[v], other) {
          if v != a.w { assert s'.workers[v] == s.workers[v]; }
        }
      }
      StepLeavesOthers(s, a, n, other);
      SerialAfterLeavesOthers(s, t, a, r, n, other);
      AgreeSymmetric(s.world, s'.world, other);
      AgreeTransitive(s'.world, s.world, t, other);
      AgreeTransitive(s'.world, t, t', other);
    }
  }

  // ---- Whole runs ----

  /** The messages of a device that workers have taken, in order. */
  ghost function Started(s: State, acts: seq<Action>, device: Id, n: nat): seq<Message> {
    if acts == [] then []
    else
      var a := Last(acts);
      Started(s, Init(acts), device, n)
      + if Enabled(Exec(s, Init(acts), n), a) && a.Dequeue? && a.m.device == device then [a.m] else []
  }

  /** The messages of a device in a serial run, in order. */
  function Handled(evs: seq<Event>, device: Id): seq<Message> {
    if evs == [] then []
    else
      Handled(Init(evs), device)
      + if Last(evs).Telemetry? && Last(evs).m.device == device then [Last(evs).m] else []
  }

  /** The serial run has handled what was taken and is no longer in hand. */
  ghost predicate Ledger(workers: seq<Worker>, started: seq<Message>, handled: seq<Message>, device: Id) {
    && (forall w :: 0 <= w < |workers| && Busy(workers[w], device) ==> started == handled + [workers[w].m])
    && (NoneBusy(workers, device) ==> started == handled)
  }

  lemma LedgerStep(s: State, a: Action, n: nat, started: seq<Message>, handled: seq<Message>, device: Id)
    requires IsWorkerStep(a) && Enabled(s, a) && Overlap(s, 1) && Overlap(Next(s, a, n), 1)
    requires Ledger(s.workers, started, handled, device)
    ensures var s' := Next(s, a, n);
            var finished := !a.Dequeue? && s'.workers[a.w].Idle? && s.workers[a.w].m.device == device;
            Ledger(s'.workers,
                   started + (if a.Dequeue? && a.m.device == device then [a.m] else []),
                   handled + (if finished then [s.workers[a.w].m] else []),
                   device)
  {
    var s' := Next(s, a, n);
    var p, p' := s.workers[a.w], s'.workers[a.w];
    assert started + [] == started && handled + [] == handled;
    assert !a.Dequeue? && !p'.Idle? ==> p'.m == p.m;
    if a.Dequeue? && a.m.device == device {
      DequeuedDeviceWasFree(s, a, n);
      forall v | 0 <= v < |s.workers| && v != a.w ensures !Busy(s'.workers[v], device) {
        assert s'.workers[v] == s.workers[v];
      }
    } else if !a.Dequeue? && p.m.device == device {
      assert Busy(p, device);
      forall v | 0 <= v < |s.workers| && v != a.w ensures !Busy(s'.workers[v], device) {
        SoleWorker(s, v, a.w, device);
      }
    } else {
      forall v | 0 <= v < |s.workers| ensures Busy(s'.workers[v], device) == Busy(s.workers[v], device) {
      }
    }
  }

  ghost predicate OnlyTelemetry(evs: seq<Event>) {
    forall i :: 0 <= i < |evs| ==> evs[i].Telemetry?
  }

  /** Nothing but commits has been answered. */
  ghost predicate Committing(evs: seq<Event>, scripts: seq<Script>) {
    && (forall i :: 0 <= i < |evs| ==> Faultless(evs[i]))
    && (forall w :: 0 <= w < |scripts| ==> AllCommitted(scripts[w].outs))
  }

  /** The step ends the message its worker holds. */
  ghost predicate Finishes(s: State, a: Action, n: nat) {
    IsWorkerStep(a) && Enabled(s, a) && !a.Dequeue? && StepWorker(s, a, n).1.Idle?
  }

  /** What the database has answered each worker about the message it took last. */
  ghost function Scripts(s: State, acts: seq<Action>, n: nat): (r: seq<Script>)
    ensures |r| == |s.workers|
  {
    if acts == [] then seq(|s.workers|, _ => NO_ANSWERS)
    else
      var before, a := Scripts(s, Init(acts), n), Last(acts);
      if IsWorkerStep(a) && Enabled(Exec(s, Init(acts), n), a) then before[a.w := Answered(before[a.w], a)] else before
  }

  /** The messages a run has finished, in that order, each with the answers the run gave it. */
  ghost function Completed(s: State, acts: seq<Action>, n: nat): seq<Event> {
    if acts == [] then []
    else
      var before, a := Exec(s, Init(acts), n), Last(acts);
      Completed(s, Init(acts), n)
      + if Finishes(before, a, n) then [Telemetry(before.workers[a.w].m, Scripts(s, acts, n)[a.w])] else []
  }

  /** Every non-overlapping run of worker steps stays in step with the serial run of its finished messages. */
  lemma {:induction false} RunStaysInStep(s: State, acts: seq<Action>, n: nat)
    requires Quiescent(s) && OverlapThroughout(s, acts, 1, n)
    requires forall i :: 0 <= i < |acts| ==> IsWorkerStep(acts[i])
    ensures var evs := Completed(s, acts, n);
            && OnlyTelemetry(evs) && PossibleRun(s.world, evs, n)
            && Sync(Exec(s, acts, n), RunAll(s.world, evs, n), Scripts(s, acts, n), n)
  {
    hide Sync, PossibleRun, OnlyTelemetry, Overlap, OverlapThroughout, Consistent, WorkerOk, Next, Answered, StepWorker;
    if acts == [] {
      FirstInStep(s, n);
    } else {
      OverlapBefore(s, acts, n);
      RunStaysInStep(s, Init(acts), n);
      InvExec(s, Init(acts), n);
      assert IsWorkerStep(Last(acts));
      var before, a, evs := Exec(s, Init(acts), n), Last(acts), Completed(s, Init(acts), n);
      if Enabled(before, a) {
        ExtendRun(s.world, before, a, n, evs, Scripts(s, Init(acts), n));
      } else {
        NotEnabledStays(before, a, n);
        assert Completed(s, acts, n) == evs;
      }
    }
  }

  lemma FirstInStep(s: State, n: nat)
    requires Quiescent(s)
    ensures OnlyTelemetry([]) && PossibleRun(s.world, [], n) && Sync(s, RunAll(s.world, [], n), Scripts(s, [], n), n)
  {
  }

  lemma OverlapBefore(s: State, acts: seq<Action>, n: nat)
    requires acts != [] && OverlapThroughout(s, acts, 1, n)
    ensures OverlapThroughout(s, Init(acts), 1, n)
    ensures Overlap(Exec(s, Init(acts), n), 1)
    ensures Overlap(Next(Exec(s, Init(acts), n), Last(acts), n), 1)
  {
    assert OverlapThroughout(s, Init(acts), 1, n);
  }

  /** The serial run grows by the message a step finishes. */
  lemma ExtendRun(start: World, s: State, a: Action, n: nat, evs: seq<Event>, scripts: seq<Script>)
    requires OnlyTelemetry(evs) && PossibleRun(start, evs, n)
    requires Sync(s, RunAll(start, evs, n), scripts, n) && Inv(s) && Overlap(s, 1) && Overlap(Next(s, a, n), 1)
    requires IsWorkerStep(a) && Enabled(s, a) && |scripts| == |s.workers|
    ensures var r := Answered(scripts[a.w], a);
            var evs' := evs + if Finishes(s, a, n) then [Telemetry(s.workers[a.w].m, r)] else [];
            && OnlyTelemetry(evs') && PossibleRun(start, evs', n)
            && Sync(Next(s, a, n), RunAll(start, evs', n), scripts[a.w := r], n)
  {
    hide Sync, Follows, Overlap, Inv, Next, OnlyTelemetry, Answered;
    var t := RunAll(start, evs, n);
    var r := Answered(scripts[a.w], a);
    SyncStep(s, t, scripts, a, n);
    if Finishes(s, a, n) {
      PossibleWhenFinished(s, t, a, r, n);
      var ev := Telemetry(s.workers[a.w].m, r);
      assert Init(evs + [ev]) == evs;
      AppendTelemetry(evs, ev);
    } else {
      assert evs + [] == evs;
    }
  }

  /** The messages taken are the messages finished and, on a busy device, the one in hand. */
  lemma {:induction false} LedgerHolds(s: State, acts: seq<Action>, n: nat, device: Id)
    requires Quiescent(s) && OverlapThroughout(s, acts, 1, n)
    requires forall i :: 0 <= i < |acts| ==> IsWorkerStep(acts[i])
    ensures Ledger(Exec(s, acts, n).workers, Started(s, acts, device, n), Handled(Completed(s, acts, n), device), device)
  {
    hide Ledger, Overlap, OverlapThroughout;
    if acts == [] {
      EmptyLedger(s.workers, device);
    } else {
      OverlapBefore(s, acts, n);
      LedgerHolds(s, Init(acts), n, device);
      assert IsWorkerStep(Last(acts));
      ExtendLedger(s, acts, n, device);
    }
  }

  /** A run without errors has no fault in its serial form. */
  lemma {:induction false} ErrorFreeCommits(s: State, acts: seq<Action>, n: nat)
    requires forall i :: 0 <= i < |acts| ==> ErrorFree(acts[i])
    ensures Committing(Completed(s, acts, n), Scripts(s, acts, n))
  {
    hide Next, Answered, Committing, EvaluateAll, WriteOne;
    if acts == [] {
      NothingCommitted(Scripts(s, [], n));
    } else {
      ErrorFreeCommits(s, Init(acts), n);
      assert ErrorFree(acts[|acts| - 1]);
      var before, a, evs := Exec(s, Init(acts), n), Last(acts), Completed(s, Init(acts), n);
      assert evs + [] == evs;
      if IsWorkerStep(a) && Enabled(before, a) {
        CommittingScript(evs, Scripts(s, Init(acts), n), a);
        if Finishes(before, a, n) {
          CommittingEvent(evs, Scripts(s, acts, n), before.workers[a.w].m, a.w);
        }
      }
    }
  }

  lemma NothingCommitted(scripts: seq<Script>)
    requires forall w :: 0 <= w < |scripts| ==> scripts[w] == NO_ANSWERS
    ensures Committing([], scripts)
  {
  }

  lemma CommittingScript(evs: seq<Event>, scripts: seq<Script>, a: Action)
    requires Committing(evs, scripts) && ErrorFree(a) && IsWorkerStep(a) && a.w < |scripts|
    ensures Committing(evs, scripts[a.w := Answered(scripts[a.w], a)])
  {
    assert AllCommitted(scripts[a.w].outs);
    assert AllCommitted(Answered(scripts[a.w], a).outs);
  }

  lemma CommittingEvent(evs: seq<Event>, scripts: seq<Script>, m: Message, w: nat)
    requires Committing(evs, scripts) && w < |scripts|
    ensures Committing(evs + [Telemetry(m, scripts[w])], scripts)
  {
  }

  lemma AppendTelemetry(evs: seq<Event>, ev: Event)
    requires OnlyTelemetry(evs) && ev.Telemetry?
    ensures OnlyTelemetry(evs + [ev])
  {
  }

  lemma EmptyLedger(workers: seq<Worker>, device: Id)
    requires forall w :: 0 <= w < |workers| ==> workers[w].Idle?
    ensures Ledger(workers, [], [], device)
  {
  }

  lemma ExtendLedger(s: State, acts: seq<Action>, n: nat, device: Id)
    requires acts != [] && IsWorkerStep(Last(acts))
    requires Overlap(Exec(s, Init(acts), n), 1) && Overlap(Next(Exec(s, Init(acts), n), Last(acts), n), 1)
    requires Ledger(Exec(s, Init(acts), n).workers, Started(s, Init(acts), device, n),
                    Handled(Completed(s, Init(acts), n), device), device)
    ensures Ledger(Exec(s, acts, n).workers, Started(s, acts, device, n), Handled(Completed(s, acts, n), device), device)
  {
    hide Ledger, Overlap, Scripts, Handled, Next;
    var before, a, evs := Exec(s, Init(acts), n), Last(acts), Completed(s, Init(acts), n);
    var started, handled := Started(s, Init(acts), device, n), Handled(evs, device);
    assert handled + [] == handled && started + [] == started && evs + [] == evs;
    if Enabled(before, a) {
      LedgerStep(before, a, n, started, handled, device);
      FinishesByIdling(before, a, n);
      if Finishes(before, a, n) {
        HandledAppend(evs, Telemetry(before.workers[a.w].m, Scripts(s, acts, n)[a.w]), device);
      }
    } else {
      NotEnabledStays(before, a, n);
    }
  }

  lemma FinishesByIdling(s: State, a: Action, n: nat)
    requires IsWorkerStep(a) && Enabled(s, a)
    ensures Finishes(s, a, n) <==> !a.Dequeue? && Next(s, a, n).workers[a.w].Idle?
  {
  }

  lemma NotEnabledStays(s: State, a: Action, n: nat)
    requires !Enabled(s, a)
    ensures Next(s, a, n) == s
  {
  }

  lemma HandledAppend(evs: seq<Event>, ev: Event, device: Id)
    requires ev.Telemetry?
    ensures Handled(evs + [ev], device) == Handled(evs, device) + if ev.m.device == device then [ev.m] else []
  {
    assert Init(evs + [ev]) == evs;
  }

  lemma PossibleWhenFinished(s: State, t: World, a: Action, r: Script, n: nat)
    requires IsWorkerStep(a) && Enabled(s, a) && !a.Dequeue? && StepWorker(s, a, n).1.Idle?
    requires Follows(StepWorker(s, a, n).0, t, s.workers[a.w].m, StepWorker(s, a, n).1, r, n)
    ensures Possible(t, Telemetry(s.workers[a.w].m, r), n)
  {
  }

  /**
    * Serialisability. A run of worker steps in which messages of one device do not overlap, whatever
    * queries and statements fail, ends with the streaks and the multiset of rows that its messages leave
    * when handled one by one, in the order they were finished and with the very answers the database gave
    * them. Each device's messages are handled in the order taken, and its rows come in the same order.
    */
  lemma {:induction false} InterleavingIsSerial(s: State, acts: seq<Action>, n: nat)
    requires Quiescent(s) && OverlapThroughout(s, acts, 1, n)
    requires forall i :: 0 <= i < |acts| ==> IsWorkerStep(acts[i])
    requires Quiescent(Exec(s, acts, n))
    ensures var evs := Completed(s, acts, n);
            && OnlyTelemetry(evs) && PossibleRun(s.world, evs, n)
            && (forall device :: Handled(evs, device) == Started(s, acts, device, n))
            && ((forall i :: 0 <= i < |acts| ==> ErrorFree(acts[i])) ==> forall i :: 0 <= i < |evs| ==> Faultless(evs[i]))
    ensures var final, serial := Exec(s, acts, n).world, RunAll(s.world, Completed(s, acts, n), n);
            && final.streaks == serial.streaks
            && multiset(final.db.alerts) == multiset(serial.db.alerts)
            && SameRules(final, serial)
            && forall device :: DeviceRows(final.db.alerts, device) == DeviceRows(serial.db.alerts, device)
  {
    hide Exec, RunAll, PossibleRun, Tracks, Agree, Consistent, WorkerOk, Completed, Scripts;
    RunStaysInStep(s, acts, n);
    var evs := Completed(s, acts, n);
    var final, serial := Exec(s, acts, n), RunAll(s.world, evs, n);
    forall device ensures Agree(final.world, serial, device) && Handled(evs, device) == Started(s, acts, device, n) {
      assert NoneBusy(final.workers, device);
      LedgerHolds(s, acts, n, device);
    }
    AgreementEverywhere(final.world, serial);
    if forall i :: 0 <= i < |acts| ==> ErrorFree(acts[i]) {
      ErrorFreeCommits(s, acts, n);
    }
  }

  lemma AgreementEverywhere(a: World, b: World)
    requires SameRules(a, b) && AgreeOnUnowned(a, b) && forall device :: Agree(a, b, device)
    ensures a.streaks == b.streaks && multiset(a.db.alerts) == multiset(b.db.alerts)
    ensures forall device :: DeviceRows(a.db.alerts, device) == DeviceRows(b.db.alerts, device)
  {
    forall id ensures SameStreak(a.streaks, b.streaks, id) {
      if id in a.db.owner {
        assert Agree(a, b, a.db.owner[id]);
        assert Owned(a.db.owner, id, a.db.owner[id]);
      }
    }
    forall id ensures (id in a.streaks <==> id in b.streaks) && (id in a.streaks ==> a.streaks[id] == b.streaks[id]) {
      assert SameStreak(a.streaks, b.streaks, id);
    }
    assert a.streaks == b.streaks;
    forall device ensures DeviceRows(a.db.alerts, device) == DeviceRows(b.db.alerts, device) {
      assert Agree(a, b, device);
    }
    SameRowsEverywhere(a.db.alerts, b.db.alerts);
  }
}
