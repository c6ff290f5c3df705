/** What `applyDecisionsWithRetry` does to the table when statements fail: every attempt starts the list over. */
module Retry {
  import opened AlertTypes
  import opened AlertTable
  import opened RuleEngine

  /** The cursor depends on the answers alone. */
  function CursorAfter(len: nat, outs: seq<Outcome>): (c: Cursor)
    ensures ValidCursor(c, len)
  {
    if outs == [] then StartCursor(len)
    else
      var c := CursorAfter(len, Init(outs));
      if c.Finished? then c else Advance(c, len, Last(outs))
  }

  lemma {:induction false} CursorIsProgress(
    alerts: seq<Alert>, device: Id, at: Time, ds: seq<RuleDecision>, outs: seq<Outcome>)
    ensures RunWrites(alerts, device, at, ds, outs).cursor == CursorAfter(|ds|, outs)
  {
    if outs != [] { CursorIsProgress(alerts, device, at, ds, Init(outs)); }
  }

  /** How often the i-th statement took effect. */
  function Hits(len: nat, outs: seq<Outcome>, i: nat): nat {
    if outs == [] then 0
    else
      var c := CursorAfter(len, Init(outs));
      Hits(len, Init(outs), i) + if c.Running? && c.next == i && !Last(outs).Rejected? then 1 else 0
  }

  /** For each attempt that has ended, how many of the list's statements it made take effect. */
  function Reaches(len: nat, outs: seq<Outcome>): seq<nat> {
    if outs == [] then []
    else
      var c := CursorAfter(len, Init(outs));
      if c.Finished? then Reaches(len, Init(outs)) else Reaches(len, Init(outs)) + Ends(c, len, Last(outs))
  }

  function CountPast(reaches: seq<nat>, i: nat): nat {
    if reaches == [] then 0 else CountPast(Init(reaches), i) + if Last(reaches) > i then 1 else 0
  }

  lemma CountPastAppend(reaches: seq<nat>, m: nat, i: nat)
    ensures CountPast(reaches + [m], i) == CountPast(reaches, i) + if m > i then 1 else 0
  {
    assert Init(reaches + [m]) == reaches;
  }

  /** What the attempt that ends with this answer has made take effect, if it does end. */
  function Ends(c: Cursor, len: nat, o: Outcome): seq<nat>
    requires c.Running?
  {
    if o.Committed? then (if c.next + 1 == len then [len] else [])
    else if o.Rejected? then [c.next]
    else [c.next + 1]
  }

  /** The ended attempts that got past the i-th statement, and the current one if it has. */
  predicate Counted(hits: nat, past: nat, c: Cursor, i: nat) {
    hits == past + if c.Running? && c.next > i then 1 else 0
  }

  lemma CountedStep(hits: nat, reaches: seq<nat>, c: Cursor, len: nat, o: Outcome, i: nat)
    requires c.Running? && ValidCursor(c, len) && i < len && Counted(hits, CountPast(reaches, i), c, i)
    ensures Counted(hits + if c.next == i && !o.Rejected? then 1 else 0,
                    CountPast(reaches + Ends(c, len, o), i), Advance(c, len, o), i)
  {
    var ends := Ends(c, len, o);
    if ends == [] {
      assert reaches + ends == reaches;
    } else {
      CountPastAppend(reaches, ends[0], i);
      assert ends == [ends[0]];
    }
  }

  /** The i-th statement takes effect once in each attempt that gets past it, the current one included. */
  lemma {:induction false} HitsCountAttempts(len: nat, outs: seq<Outcome>, i: nat)
    requires i < len
    ensures Counted(Hits(len, outs, i), CountPast(Reaches(len, outs), i), CursorAfter(len, outs), i)
  {
    if outs != [] {
      hide CountPast, Counted, Advance, Ends;
      HitsCountAttempts(len, Init(outs), i);
      var c := CursorAfter(len, Init(outs));
      if c.Running? {
        CountedStep(Hits(len, Init(outs), i), Reaches(len, Init(outs)), c, len, Last(outs), i);
      }
    }
  }

  /** An answer ends an attempt exactly if the loop does not go on with it. */
  lemma EndsOneAttempt(c: Cursor, len: nat, o: Outcome)
    requires c.Running? && ValidCursor(c, len)
    ensures var next := Advance(c, len, o);
            && |Ends(c, len, o)| == (if next.Running? && next.attempt == c.attempt then 0 else 1)
            && (next.Running? ==> c.attempt <= next.attempt <= c.attempt + 1)
  {
  }

  /** There are at most three attempts, and as many as have ended before the current one. */
  lemma {:induction false} AtMostThreeAttempts(len: nat, outs: seq<Outcome>)
    ensures var c := CursorAfter(len, outs);
            && |Reaches(len, outs)| <= MAX_ATTEMPTS
            && (c.Running? ==> |Reaches(len, outs)| == c.attempt - 1)
  {
    if outs != [] {
      AtMostThreeAttempts(len, Init(outs));
      var c := CursorAfter(len, Init(outs));
      if c.Running? {
        EndsOneAttempt(c, len, Last(outs));
        hide Ends, Advance;
      }
    }
  }

  lemma {:induction false} CountPastBound(reaches: seq<nat>, i: nat)
    ensures CountPast(reaches, i) <= |reaches|
  {
    if reaches != [] { CountPastBound(Init(reaches), i); }
  }

  /** A list that succeeds has made every one of its statements take effect; no statement does so more than thrice. */
  lemma {:induction false} SuccessHitsAll(len: nat, outs: seq<Outcome>, i: nat)
    requires i < len
    ensures Hits(len, outs, i) <= MAX_ATTEMPTS
    ensures CursorAfter(len, outs) == Finished(true) ==> Hits(len, outs, i) >= 1
  {
    HitsCountAttempts(len, outs, i);
    AtMostThreeAttempts(len, outs);
    CountPastBound(Reaches(len, outs), i);
    SuccessReachesEnd(len, outs, i);
  }

  lemma {:induction false} SuccessReachesEnd(len: nat, outs: seq<Outcome>, i: nat)
    requires i < len
    ensures CursorAfter(len, outs) == Finished(true) ==> CountPast(Reaches(len, outs), i) >= 1
  {
    if outs != [] {
      hide CountPast;
      SuccessReachesEnd(len, Init(outs), i);
      var c := CursorAfter(len, Init(outs));
      if c.Running? && CursorAfter(len, outs) == Finished(true) {
        assert Ends(c, len, Last(outs)) == [len];
        CountPastAppend(Reaches(len, Init(outs)), len, i);
      }
    }
  }

  predicate AllCommitted(outs: seq<Outcome>) {
    forall k :: 0 <= k < |outs| ==> outs[k].Committed?
  }

  /** Without errors there is one pass and each statement takes effect at most once. */
  lemma {:induction false} CommittedHitsOnce(len: nat, outs: seq<Outcome>, i: nat)
    requires AllCommitted(outs) && i < len
    ensures var c := CursorAfter(len, outs);
            && c != Finished(false)
            && (c.Running? ==> c.attempt == 1)
            && Hits(len, outs, i) == if c.Finished? || c.next > i then 1 else 0
  {
    if outs != [] { CommittedHitsOnce(len, Init(outs), i); }
  }

  /** The rows and active rows of the i-th decision's rule, given how often its statement took effect. */
  ghost predicate HasEffect(before: seq<Alert>, after: seq<Alert>, d: RuleDecision, hits: nat) {
    if d.decision.CreateAlert? then
      && RowCount(after, d.rule.id) == RowCount(before, d.rule.id) + hits
      && ActiveCount(after, d.rule.id) == ActiveCount(before, d.rule.id) + hits
    else
      && RowCount(after, d.rule.id) == RowCount(before, d.rule.id)
      && ActiveCount(after, d.rule.id) == if hits > 0 then 0 else ActiveCount(before, d.rule.id)
  }

  lemma EffectOfStatement(
    before: seq<Alert>, p: Progress, device: Id, at: Time, ds: seq<RuleDecision>, o: Outcome, i: nat, hits: nat)
    requires DistinctDecisions(ds) && i < |ds| && ValidCursor(p.cursor, |ds|) && p.cursor.Running?
    requires HasEffect(before, p.alerts, ds[i], hits)
    ensures HasEffect(before, WriteOne(p, device, at, ds, o).alerts, ds[i],
                      hits + if p.cursor.next == i && !o.Rejected? then 1 else 0)
  {
    var d := ds[p.cursor.next];
    assert d.rule.id == ds[i].rule.id <==> p.cursor.next == i;
    ActiveCountApplyOne(p.alerts, device, d, at, ds[i].rule.id);
    RowCountApplyOne(p.alerts, device, d, at, ds[i].rule.id);
  }

  /** The i-th decision of a list with distinct rules decides how its rule's alerts change. */
  lemma {:induction false} EffectOnListedRule(
    alerts: seq<Alert>, device: Id, at: Time, ds: seq<RuleDecision>, outs: seq<Outcome>, i: nat)
    requires DistinctDecisions(ds) && i < |ds|
    ensures HasEffect(alerts, RunWrites(alerts, device, at, ds, outs).alerts, ds[i], Hits(|ds|, outs, i))
  {
    if outs != [] {
      EffectOnListedRule(alerts, device, at, ds, Init(outs), i);
      CursorIsProgress(alerts, device, at, ds, Init(outs));
      var p := RunWrites(alerts, device, at, ds, Init(outs));
      if p.cursor.Running? {
        EffectOfStatement(alerts, p, device, at, ds, Last(outs), i, Hits(|ds|, Init(outs), i));
      }
    }
  }

  /** A rule without a decision keeps its alerts. */
  lemma {:induction false} EffectOnOtherRule(
    alerts: seq<Alert>, device: Id, at: Time, ds: seq<RuleDecision>, outs: seq<Outcome>, rule: Id)
    requires Unnamed(ds, rule)
    ensures var after := RunWrites(alerts, device, at, ds, outs).alerts;
            RowCount(after, rule) == RowCount(alerts, rule) && ActiveCount(after, rule) == ActiveCount(alerts, rule)
  {
    hide ApplyOne, Advance, ActiveCount, RowCount;
    if outs != [] {
      EffectOnOtherRule(alerts, device, at, ds, Init(outs), rule);
      var p := RunWrites(alerts, device, at, ds, Init(outs));
      if p.cursor.Running? {
        ActiveCountApplyOne(p.alerts, device, ds[p.cursor.next], at, rule);
        RowCountApplyOne(p.alerts, device, ds[p.cursor.next], at, rule);
      }
    }
  }

  /**
    * The retry account. When the loop has ended, the rows inserted for the i-th decision are as many as
    * the attempts that got past it; a rule with a successful auto-resolve has no active alert left.
    */
  lemma {:induction false} RetryAccount(alerts: seq<Alert>, device: Id, at: Time, ds: seq<RuleDecision>, outs: seq<Outcome>, i: nat)
    requires DistinctDecisions(ds) && i < |ds|
    requires CursorAfter(|ds|, outs).Finished?
    ensures var after := RunWrites(alerts, device, at, ds, outs).alerts;
            var rule := ds[i].rule.id;
            var past := CountPast(Reaches(|ds|, outs), i);
            && (ds[i].decision.CreateAlert? ==> RowCount(after, rule) == RowCount(alerts, rule) + past)
            && (ds[i].decision.AutoResolve? && past > 0 ==> ActiveCount(after, rule) == 0)
            && past <= MAX_ATTEMPTS
            && (CursorAfter(|ds|, outs) == Finished(true) ==> past >= 1)
  {
    EffectOnListedRule(alerts, device, at, ds, outs, i);
    HitsCountAttempts(|ds|, outs, i);
    SuccessHitsAll(|ds|, outs, i);
  }

  /** A single decision whose errors have no effect is written exactly once on success and never on failure. */
  lemma {:induction false} SingleDecisionOnce(outs: seq<Outcome>)
    requires forall k :: 0 <= k < |outs| ==> !outs[k].Unacknowledged?
    ensures Hits(1, outs, 0) == if CursorAfter(1, outs) == Finished(true) then 1 else 0
  {
    if outs != [] {
      SingleDecisionOnce(Init(outs));
      var c, o := CursorAfter(1, Init(outs)), Last(outs);
      assert o == outs[|outs| - 1];
      if c.Finished? {
        assert Hits(1, outs, 0) == Hits(1, Init(outs), 0);
      } else if o.Committed? {
        assert CursorAfter(1, outs) == Finished(true) && Hits(1, outs, 0) == Hits(1, Init(outs), 0) + 1;
      } else {
        assert CursorAfter(1, outs) != Finished(true) && Hits(1, outs, 0) == Hits(1, Init(outs), 0);
      }
    }
  }

  /** So a lone create adds exactly one row when it succeeds, and none when it gives up. */
  lemma {:induction false} SingleCreateAddsOneRow(alerts: seq<Alert>, device: Id, at: Time, d: RuleDecision, outs: seq<Outcome>)
    requires d.decision.CreateAlert? && forall k :: 0 <= k < |outs| ==> !outs[k].Unacknowledged?
    ensures var after := RunWrites(alerts, device, at, [d], outs);
            RowCount(after.alerts, d.rule.id) ==
            RowCount(alerts, d.rule.id) + if after.cursor == Finished(true) then 1 else 0
  {
    SingleDecisionOnce(outs);
    CursorIsProgress(alerts, device, at, [d], outs);
    EffectOnListedRule(alerts, device, at, [d], outs, 0);
  }

  /** Two decisions are enough for a duplicate: the first commits in every attempt, the second never does. */
  lemma {:induction false} DuplicateByRetry(alerts: seq<Alert>, device: Id, at: Time, ds: seq<RuleDecision>)
    requires |ds| == 2 && DistinctDecisions(ds) && ds[0].decision.CreateAlert?
    ensures var outs := [Committed, Rejected, Committed, Rejected, Committed, Rejected];
            var after := RunWrites(alerts, device, at, ds, outs);
            && after.cursor == Finished(false)
            && ActiveCount(after.alerts, ds[0].rule.id) == ActiveCount(alerts, ds[0].rule.id) + 3
  {
    var o1 := [Committed];
    var o2 := o1 + [Rejected];
    var o3 := o2 + [Committed];
    var o4 := o3 + [Rejected];
    var o5 := o4 + [Committed];
    var o6 := o5 + [Rejected];
    assert Init(o6) == o5 && Init(o5) == o4 && Init(o4) == o3 && Init(o3) == o2 && Init(o2) == o1 && Init(o1) == [];
    assert CursorAfter(2, o1) == Running(1, 1) && Hits(2, o1, 0) == 1;
    assert CursorAfter(2, o2) == Running(2, 0) && Hits(2, o2, 0) == 1;
    assert CursorAfter(2, o3) == Running(2, 1) && Hits(2, o3, 0) == 2;
    assert CursorAfter(2, o4) == Running(3, 0) && Hits(2, o4, 0) == 2;
    assert CursorAfter(2, o5) == Running(3, 1) && Hits(2, o5, 0) == 3;
    assert CursorAfter(2, o6) == Finished(false) && Hits(2, o6, 0) == 3;
    EffectOnListedRule(alerts, device, at, ds, o6, 0);
    CursorIsProgress(alerts, device, at, ds, o6);
    assert o6 == [Committed, Rejected, Committed, Rejected, Committed, Rejected];
  }

  // ---- One rule's statement ----

  /** Where the list decides about the rule, or its length. */
  function IndexFor(ds: seq<RuleDecision>, rule: Id): (i: nat)
    ensures i <= |ds|
    ensures i < |ds| ==> ds[i].rule.id == rule && DecisionFor(ds, rule) == Some(ds[i].decision)
    ensures i == |ds| ==> DecisionFor(ds, rule) == None && Unnamed(ds, rule)
  {
    if ds == [] then 0
    else if Last(ds).rule.id == rule then |ds| - 1
    else
      var i := IndexFor(Init(ds), rule);
      if i < |ds| - 1 then i else |ds|
  }

  /** The statement the list holds for the rule has taken effect at least once. */
  predicate TookEffect(ds: seq<RuleDecision>, outs: seq<Outcome>, rule: Id) {
    IndexFor(ds, rule) < |ds| && Hits(|ds|, outs, IndexFor(ds, rule)) > 0
  }

  /** A rule's activity at any point of the write loop, from its decision and whether that has taken effect. */
  lemma ActivityDuringWrites(
    alerts: seq<Alert>, device: Id, at: Time, ds: seq<RuleDecision>, outs: seq<Outcome>, rule: Id)
    requires DistinctDecisions(ds)
    ensures var before := ActiveCount(alerts, rule) > 0;
            var after := ActiveCount(RunWrites(alerts, device, at, ds, outs).alerts, rule) > 0;
            after == if !TookEffect(ds, outs, rule) then before else DecisionFor(ds, rule) == Some(CreateAlert)
  {
    hide ActiveCount, RowCount, RunWrites, Hits;
    var i := IndexFor(ds, rule);
    if i < |ds| {
      EffectOnListedRule(alerts, device, at, ds, outs, i);
    } else {
      EffectOnOtherRule(alerts, device, at, ds, outs, rule);
    }
  }

  function Commits(k: nat): seq<Outcome> {
    seq(k, _ => Committed)
  }

  lemma {:induction false} CommitsCursor(len: nat, k: nat)
    requires k < len
    ensures CursorAfter(len, Commits(k)) == Running(1, k)
  {
    if k > 0 {
      assert Init(Commits(k)) == Commits(k - 1) && Last(Commits(k)) == Committed;
      CommitsCursor(len, k - 1);
    }
  }

  /** The statements of a list, one after another. */
  function Applied(alerts: seq<Alert>, device: Id, at: Time, ds: seq<RuleDecision>): seq<Alert> {
    if ds == [] then alerts else ApplyOne(Applied(alerts, device, at, Init(ds)), device, Last(ds), at)
  }

  /** Without errors the loop is one pass over the list in order, and it succeeds at its end. */
  lemma {:induction false} CommitsAreOnePass(alerts: seq<Alert>, device: Id, at: Time, ds: seq<RuleDecision>, k: nat)
    requires k <= |ds|
    ensures RunWrites(alerts, device, at, ds, Commits(k)) ==
            Progress(Applied(alerts, device, at, ds[..k]), if k == |ds| then Finished(true) else Running(1, k))
  {
    if k > 0 {
      hide RunWrites, Applied, ApplyOne, Commits;
      CommitsAreOnePass(alerts, device, at, ds, k - 1);
      OneMoreCommit(alerts, device, at, ds, k);
    }
  }

  lemma OneMoreCommit(alerts: seq<Alert>, device: Id, at: Time, ds: seq<RuleDecision>, k: nat)
    requires 1 <= k <= |ds|
    ensures RunWrites(alerts, device, at, ds, Commits(k)) ==
            WriteOne(RunWrites(alerts, device, at, ds, Commits(k - 1)), device, at, ds, Committed)
    ensures Applied(alerts, device, at, ds[..k]) == ApplyOne(Applied(alerts, device, at, ds[..k - 1]), device, ds[k - 1], at)
  {
    hide ApplyOne, WriteOne;
    assert Init(Commits(k)) == Commits(k - 1) && Last(Commits(k)) == Committed;
    assert Init(ds[..k]) == ds[..k - 1] && Last(ds[..k]) == ds[k - 1];
  }

  /** An insert that took effect and whose answer was lost is repeated: even a lone create can add two rows. */
  lemma {:induction false} DuplicateByLostAnswer(alerts: seq<Alert>, device: Id, at: Time, d: RuleDecision)
    requires d.decision.CreateAlert?
    ensures var after := RunWrites(alerts, device, at, [d], [Unacknowledged, Committed]);
            && after.cursor == Finished(true)
            && RowCount(after.alerts, d.rule.id) == RowCount(alerts, d.rule.id) + 2
  {
    var o1, o2 := [Unacknowledged], [Unacknowledged, Committed];
    assert Init(o2) == o1 && Init(o1) == [];
    assert CursorAfter(1, o1) == Running(2, 0) && Hits(1, o1, 0) == 1;
    EffectOnListedRule(alerts, device, at, [d], o2, 0);
    CursorIsProgress(alerts, device, at, [d], o2);
  }

  // ---- Lists that only auto-resolve ----

  /** Every active alert of the given rules resolved at once. */
  function ResolveRules(alerts: seq<Alert>, rules: set<Id>, at: Time): (r: seq<Alert>)
    ensures |r| == |alerts|
  {
    seq(|alerts|, i requires 0 <= i < |alerts| =>
      if alerts[i].Active() && alerts[i].rule in rules then AutoResolved(alerts[i], at) else alerts[i])
  }

  function RuleIds(ds: seq<RuleDecision>): set<Id> {
    set i | 0 <= i < |ds| :: ds[i].rule.id
  }

  /** The furthest any attempt has got. */
  function Furthest(len: nat, outs: seq<Outcome>): (m: nat)
    ensures m <= len
    ensures CursorAfter(len, outs).Running? ==> CursorAfter(len, outs).next <= m
    ensures CursorAfter(len, outs) == Finished(true) ==> m == len
  {
    if outs == [] then 0
    else
      var c := CursorAfter(len, Init(outs));
      var m := Furthest(len, Init(outs));
      if c.Running? && !Last(outs).Rejected? && c.next == m then m + 1 else m
  }

  /** Retrying auto-resolves is idempotent: the table is as after one clean pass over the part reached. */
  lemma {:induction false} AutoResolveListIdempotent(
    alerts: seq<Alert>, device: Id, at: Time, ds: seq<RuleDecision>, outs: seq<Outcome>)
    requires forall i :: 0 <= i < |ds| ==> ds[i].decision.AutoResolve?
    ensures RunWrites(alerts, device, at, ds, outs).alerts ==
            ResolveRules(alerts, RuleIds(ds[..Furthest(|ds|, outs)]), at)
    ensures CursorAfter(|ds|, outs) == Finished(true) ==>
              RunWrites(alerts, device, at, ds, outs).alerts == ResolveRules(alerts, RuleIds(ds), at)
  {
    assert ds[..|ds|] == ds;
    if outs == [] {
      assert RuleIds(ds[..0]) == {};
    } else {
      AutoResolveListIdempotent(alerts, device, at, ds, Init(outs));
      CursorIsProgress(alerts, device, at, ds, Init(outs));
      var p := RunWrites(alerts, device, at, ds, Init(outs));
      var m := Furthest(|ds|, Init(outs));
      if p.cursor.Running? && !Last(outs).Rejected? {
        var ids := RuleIds(ds[..m]);
        var id := ds[p.cursor.next].rule.id;
        ResolveAnother(alerts, ids, id, at);
        if p.cursor.next == m {
          assert RuleIds(ds[..m + 1]) == ids + {id} by {
            assert ds[..m + 1][m].rule.id == id;
            assert forall i :: 0 <= i < m ==> ds[..m + 1][i] == ds[..m][i];
          }
        } else {
          assert ds[..m][p.cursor.next].rule.id == id;
          assert ids + {id} == ids;
        }
      }
    }
  }

  lemma ResolveAnother(alerts: seq<Alert>, ids: set<Id>, id: Id, at: Time)
    ensures AutoResolveRule(ResolveRules(alerts, ids, at), id, at) == ResolveRules(alerts, ids + {id}, at)
  {
  }
}
