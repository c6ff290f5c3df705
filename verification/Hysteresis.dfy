/** One rule seen over an unbounded history: its streak, whether it is active, and what moves the two. */
module Hysteresis {
  import opened AlertTypes
  import opened RuleEngine

  datatype Engine = Engine(streak: BreachState, active: bool)

  /**
    * What can happen to a rule between two messages or with one: an evaluated reading (`lost` when the
    * decision it led to never took effect), a person resolving one of its alerts (`left` when another is
    * still active), and a restart of the ingestion process.
    */
  datatype Signal = Reading(triggered: bool, lost: bool) | Resolve(left: bool) | Reset

  function Asks(e: Engine, triggered: bool, n: nat): Option<Decision> {
    Decide(triggered, e.active, Observe(e.streak, triggered).count, n)
  }

  function Respond(e: Engine, s: Signal, n: nat): Engine {
    match s
    case Reading(x, lost) =>
      Engine(Observe(e.streak, x), if Asks(e, x, n).Some? && !lost then x else e.active)
    case Resolve(left) => e.(active := e.active && left)
    case Reset => e.(streak := NO_STREAK)
  }

  function Run(e: Engine, signals: seq<Signal>, n: nat): Engine {
    if signals == [] then e else Respond(Run(e, Init(signals), n), Last(signals), n)
  }

  /** The engine fed readings only, every decision taking effect. */
  function Follow(e: Engine, xs: seq<bool>, n: nat): Engine {
    if xs == [] then e else Respond(Follow(e, Init(xs), n), Reading(Last(xs), false), n)
  }

  /** Only readings, and no decision lost. */
  predicate Clean(signals: seq<Signal>) {
    forall i :: 0 <= i < |signals| ==> signals[i].Reading? && !signals[i].lost
  }

  function Triggers(signals: seq<Signal>): seq<bool> {
    if signals == [] then []
    else if Last(signals).Reading? then Triggers(Init(signals)) + [Last(signals).triggered]
    else Triggers(Init(signals))
  }

  lemma {:induction false} CleanRunFollows(e: Engine, signals: seq<Signal>, n: nat)
    requires Clean(signals)
    ensures Run(e, signals, n) == Follow(e, Triggers(signals), n)
  {
    if signals != [] {
      CleanRunFollows(e, Init(signals), n);
      var xs := Triggers(signals);
      assert Init(xs) == Triggers(Init(signals));
    }
  }

  // ---- The streak is the longest constant suffix ----

  function StreakAfter(s: BreachState, xs: seq<bool>): BreachState {
    if xs == [] then s else Observe(StreakAfter(s, Init(xs)), Last(xs))
  }

  lemma {:induction false} FollowStreak(e: Engine, xs: seq<bool>, n: nat)
    ensures Follow(e, xs, n).streak == StreakAfter(e.streak, xs)
  {
    if xs != [] { FollowStreak(e, Init(xs), n); }
  }

  /** `s` is the direction and length of the longest constant suffix of `xs`. */
  ghost predicate LongestSuffix(xs: seq<bool>, s: BreachState) {
    && s.count <= |xs|
    && (xs != [] ==> s.count > 0)
    && (forall i :: |xs| - s.count <= i < |xs| ==> xs[i] == s.breaching)
    && (s.count < |xs| ==> xs[|xs| - s.count - 1] != s.breaching)
  }

  lemma {:induction false} StreakIsLongestSuffix(xs: seq<bool>)
    ensures LongestSuffix(xs, StreakAfter(NO_STREAK, xs))
  {
    if xs != [] {
      StreakIsLongestSuffix(Init(xs));
    }
  }

  /** One evaluation as the tracker sees it. */
  datatype Call = Call(rules: seq<Rule>, readings: map<string, real>, active: set<Id>)

  function StreaksAfter(calls: seq<Call>, n: nat): map<Id, BreachState> {
    if calls == [] then map[]
    else
      var c := Last(calls);
      EvaluateAll(c.rules, c.readings, c.active, StreaksAfter(Init(calls), n), n).streaks
  }

  /** The readings a call evaluates for a rule id: at most one, none if the rule or its metric is missing. */
  function OwnReading(rules: seq<Rule>, readings: map<string, real>, id: Id): Option<bool> {
    if rules == [] then None
    else if Last(rules).id == id && Evaluated(Last(rules), readings) then Some(Triggered(Last(rules), readings))
    else OwnReading(Init(rules), readings, id)
  }

  function History(calls: seq<Call>, id: Id): seq<bool> {
    if calls == [] then []
    else
      var x := OwnReading(Last(calls).rules, Last(calls).readings, id);
      History(Init(calls), id) + if x.Some? then [x.value] else []
  }

  lemma {:induction false} OwnStreakObserves(
    rules: seq<Rule>, readings: map<string, real>, streaks: map<Id, BreachState>, id: Id)
    ensures var x := OwnReading(rules, readings, id);
            OwnStreak(rules, readings, streaks, id) ==
            if x.Some? then Observe(StreakOf(streaks, id), x.value) else StreakOf(streaks, id)
  {
    if rules != [] { OwnStreakObserves(Init(rules), readings, streaks, id); }
  }

  /**
    * Whatever calls the tracker has served, a rule's stored streak is the longest constant suffix of its
    * own evaluated readings; calls that do not evaluate it leave no trace.
    */
  lemma {:induction false} StoredStreakIsLongestSuffix(calls: seq<Call>, n: nat, id: Id)
    requires forall i :: 0 <= i < |calls| ==> DistinctIds(calls[i].rules)
    ensures StreakOf(StreaksAfter(calls, n), id) == StreakAfter(NO_STREAK, History(calls, id))
    ensures LongestSuffix(History(calls, id), StreakOf(StreaksAfter(calls, n), id))
  {
    StreakIsLongestSuffix(History(calls, id));
    if calls != [] {
      StoredStreakIsLongestSuffix(Init(calls), n, id);
      hide EvaluateAll, OwnStreak, OwnReading, LongestSuffix;
      var c := Last(calls);
      var before := StreaksAfter(Init(calls), n);
      RulesAreIndependent(c.rules, c.readings, c.active, before, n);
      OwnStreakObserves(c.rules, c.readings, before, id);
      var h := History(calls, id);
      if OwnReading(c.rules, c.readings, id).Some? {
        assert Init(h) == History(Init(calls), id);
      } else {
        assert h == History(Init(calls), id);
      }
      assert StreakOf(StreaksAfter(calls, n), id) == OwnStreak(c.rules, c.readings, before, id);
    }
  }

  // ---- The streak counter refines the window specification ----

  /** The n readings that end at position `end` all went in direction `dir`. */
  ghost predicate Window(xs: seq<bool>, end: nat, n: nat, dir: bool) {
    n <= end <= |xs| && forall i :: end - n <= i < end ==> xs[i] == dir
  }

  ghost predicate HasWindow(xs: seq<bool>, n: nat) {
    exists end: nat, dir :: Window(xs, end, n, dir)
  }

  ghost predicate LatestWindow(xs: seq<bool>, end: nat, n: nat, dir: bool) {
    Window(xs, end, n, dir) && forall end': nat, dir' :: Window(xs, end', n, dir') ==> end' <= end
  }

  /** Readings with a full window have a latest one, so the two halves of the window law cover every history. */
  lemma {:induction false} LatestWindowExists(xs: seq<bool>, n: nat) returns (end: nat, dir: bool)
    requires HasWindow(xs, n)
    ensures LatestWindow(xs, end, n, dir)
  {
    if exists d :: Window(xs, |xs|, n, d) {
      end, dir := |xs|, var d :| Window(xs, |xs|, n, d); d;
    } else {
      WindowBeforeEnd(xs, n);
      end, dir := LatestWindowExists(Init(xs), n);
      assert Window(xs, end, n, dir);
      forall end': nat, dir' | Window(xs, end', n, dir') ensures end' <= end {
        assert Window(Init(xs), end', n, dir');
      }
    }
  }

  lemma WindowBeforeEnd(xs: seq<bool>, n: nat)
    requires HasWindow(xs, n) && forall d :: !Window(xs, |xs|, n, d)
    ensures xs != [] && HasWindow(Init(xs), n)
  {
    var end: nat, dir :| Window(xs, end, n, dir);
    assert end != |xs|;
    forall i | end - n <= i < end ensures Init(xs)[i] == dir { assert Init(xs)[i] == xs[i]; }
    assert Window(Init(xs), end, n, dir);
  }

  /** A window at the end of the readings shows in the streak, wherever the streak started from. */
  lemma {:induction false} WindowFillsStreak(s: BreachState, xs: seq<bool>, k: nat, dir: bool)
    requires 1 <= k <= |xs|
    requires forall i :: |xs| - k <= i < |xs| ==> xs[i] == dir
    ensures StreakAfter(s, xs).breaching == dir && StreakAfter(s, xs).count >= k
  {
    if k > 1 { WindowFillsStreak(s, Init(xs), k - 1, dir); }
  }

  /** Right after a window, the rule is active exactly if the window was breaching. */
  lemma WindowSetsActive(e: Engine, xs: seq<bool>, n: nat, dir: bool)
    requires n >= 1 && Window(xs, |xs|, n, dir)
    ensures Follow(e, xs, n).active == dir
    ensures Follow(e, xs, n).streak.breaching == dir && Follow(e, xs, n).streak.count >= n
  {
    WindowFillsStreak(e.streak, xs, n, dir);
    FollowStreak(e, xs, n);
    FollowStreak(e, Init(xs), n);
  }

  /** A reading that completes no window changes nothing but the streak. */
  lemma NoWindowNoDecision(e: Engine, xs: seq<bool>, n: nat)
    requires e.streak == NO_STREAK && xs != []
    requires forall dir :: !Window(xs, |xs|, n, dir)
    ensures Follow(e, xs, n).active == Follow(e, Init(xs), n).active
  {
    FollowStreak(e, xs, n);
    FollowStreak(e, Init(xs), n);
    StreakIsLongestSuffix(xs);
    var s := StreakAfter(NO_STREAK, xs);
    if s.count >= n {
      assert Window(xs, |xs|, n, s.breaching);
    }
  }

  lemma WindowOfPrefix(xs: seq<bool>, end: nat, n: nat, dir: bool)
    requires xs != [] && end < |xs|
    ensures Window(xs, end, n, dir) <==> Window(Init(xs), end, n, dir)
  {
    assert forall i :: 0 <= i < |xs| - 1 ==> Init(xs)[i] == xs[i];
  }

  lemma PrefixWindow(xs: seq<bool>, n: nat)
    requires xs != [] && HasWindow(Init(xs), n)
    ensures HasWindow(xs, n)
  {
    var end: nat, dir :| Window(Init(xs), end, n, dir);
    WindowOfPrefix(xs, end, n, dir);
    assert Window(xs, end, n, dir);
  }

  /** From an empty streak, the rule's activity is the direction of its latest full window of readings. */
  lemma {:induction false} LatestWindowDecides(e: Engine, xs: seq<bool>, n: nat, end: nat, dir: bool)
    requires n >= 1 && e.streak == NO_STREAK
    requires LatestWindow(xs, end, n, dir)
    ensures Follow(e, xs, n).active == dir
  {
    if end == |xs| {
      WindowSetsActive(e, xs, n, dir);
    } else {
      NoWindowNoDecision(e, xs, n);
      forall end': nat, dir' | Window(Init(xs), end', n, dir') ensures end' <= end {
        WindowOfPrefix(xs, end', n, dir');
      }
      WindowOfPrefix(xs, end, n, dir);
      LatestWindowDecides(e, Init(xs), n, end, dir);
    }
  }

  /** Without a full window, the rule keeps the activity it started with. */
  lemma {:induction false} NoWindowKeeps(e: Engine, xs: seq<bool>, n: nat)
    requires e.streak == NO_STREAK && !HasWindow(xs, n)
    ensures Follow(e, xs, n).active == e.active
  {
    if xs != [] {
      NoWindowNoDecision(e, xs, n);
      if HasWindow(Init(xs), n) { PrefixWindow(xs, n); }
      NoWindowKeeps(e, Init(xs), n);
    }
  }

  // ---- Restart ----

  /** Two engines no further reading can tell apart: streak lengths count only up to the debounce. */
  predicate Alike(e: Engine, f: Engine, n: nat) {
    && e.active == f.active
    && e.streak.breaching == f.streak.breaching
    && (e.streak.count == f.streak.count || (e.streak.count >= n && f.streak.count >= n))
  }

  lemma AlikeStays(e: Engine, f: Engine, x: bool, n: nat)
    requires Alike(e, f, n)
    ensures Asks(e, x, n) == Asks(f, x, n)
    ensures Alike(Respond(e, Reading(x, false), n), Respond(f, Reading(x, false), n), n)
  {
  }

  /**
    * Self-stabilisation: two engines in any states whatever, fed the same readings, agree on activity and
    * on every later decision from the first full window on.
    */
  lemma {:induction false} WindowSynchronises(e: Engine, f: Engine, xs: seq<bool>, n: nat, end: nat, dir: bool)
    requires n >= 1 && Window(xs, end, n, dir)
    ensures Alike(Follow(e, xs, n), Follow(f, xs, n), n)
    ensures forall x :: Asks(Follow(e, xs, n), x, n) == Asks(Follow(f, xs, n), x, n)
  {
    if end == |xs| {
      WindowSetsActive(e, xs, n, dir);
      WindowSetsActive(f, xs, n, dir);
    } else {
      WindowOfPrefix(xs, end, n, dir);
      WindowSynchronises(e, f, Init(xs), n, end, dir);
      AlikeStays(Follow(e, Init(xs), n), Follow(f, Init(xs), n), Last(xs), n);
    }
    forall x { AlikeStays(Follow(e, xs, n), Follow(f, xs, n), x, n); }
  }

  /** How many readings at the start go in direction `dir`. */
  function LeadingRun(xs: seq<bool>, dir: bool): (k: nat)
    ensures k <= |xs|
  {
    if xs == [] then 0
    else
      var k := LeadingRun(Init(xs), dir);
      if k == |xs| - 1 && Last(xs) == dir then k + 1 else k
  }

  /** The readings first complete the streak the engine already had, and that streak asks for a change. */
  predicate FinishesStreak(e: Engine, xs: seq<bool>, n: nat) {
    var k := LeadingRun(xs, e.streak.breaching);
    e.streak.breaching != e.active && k >= 1 && e.streak.count + k >= n
  }

  /** A streak that starts somewhere is its start prolonged, or lies within the readings. */
  lemma {:induction false} StreakSplit(s: BreachState, xs: seq<bool>)
    ensures var r := StreakAfter(s, xs);
            if LeadingRun(xs, s.breaching) == |xs| then r == BreachState(s.count + |xs|, s.breaching)
            else 1 <= r.count <= |xs| && forall i :: |xs| - r.count <= i < |xs| ==> xs[i] == r.breaching
  {
    if xs != [] { StreakSplit(s, Init(xs)); }
  }

  /** Without a window, an engine changes its activity exactly by finishing the streak it came with. */
  lemma {:induction false} ChangeWithoutWindow(e: Engine, xs: seq<bool>, n: nat)
    requires n >= 1 && !HasWindow(xs, n)
    ensures Follow(e, xs, n).active == if FinishesStreak(e, xs, n) then !e.active else e.active
  {
    if xs != [] {
      if HasWindow(Init(xs), n) { PrefixWindow(xs, n); }
      ChangeWithoutWindow(e, Init(xs), n);
      FollowStreak(e, xs, n);
      FollowStreak(e, Init(xs), n);
      StreakSplit(e.streak, xs);
      var r := StreakAfter(e.streak, xs);
      if LeadingRun(xs, e.streak.breaching) != |xs| && r.count >= n {
        assert Window(xs, |xs|, n, r.breaching);
        assert false;
      }
    }
  }

  /**
    * The exact cost of a restart. While no full window has been read, the restarted engine and the one
    * that kept its streak disagree if and only if the readings began by finishing that streak.
    */
  lemma {:induction false} RestartDisagreement(e: Engine, xs: seq<bool>, n: nat)
    requires n >= 1 && !HasWindow(xs, n)
    ensures Follow(Respond(e, Reset, n), xs, n).active != Follow(e, xs, n).active <==> FinishesStreak(e, xs, n)
  {
    NoWindowKeeps(Respond(e, Reset, n), xs, n);
    ChangeWithoutWindow(e, xs, n);
  }

  function Alternating(len: nat): seq<bool> {
    seq(len, i => i % 2 == 0)
  }

  lemma {:induction false} AlternatingLeads(len: nat)
    requires len >= 1
    ensures LeadingRun(Alternating(len), true) == 1
  {
    var xs := Alternating(len);
    assert Init(xs) == Alternating(len - 1) && (len == 1 ==> xs[0]) && (len == 2 ==> !xs[1]);
    hide Alternating;
    if len > 1 {
      AlternatingLeads(len - 1);
    } else {
      assert Init(xs) == [];
    }
  }

  /**
    * A restart is not a delay of at most n - 1 readings: for every length there are readings over which a
    * restarted rule stays inactive while the one that kept its streak of n - 1 is active throughout.
    */
  lemma {:induction false} RestartCanMissForever(n: nat, len: nat)
    requires n >= 2 && len >= 1
    ensures var e := Engine(BreachState(n - 1, true), false);
            && Follow(e, Alternating(len), n).active
            && !Follow(Respond(e, Reset, n), Alternating(len), n).active
  {
    var e := Engine(BreachState(n - 1, true), false);
    var xs := Alternating(len);
    forall end: nat, dir ensures !Window(xs, end, n, dir) {
      if n <= end <= len { assert xs[end - 1] != xs[end - 2]; }
    }
    AlternatingLeads(len);
    RestartDisagreement(e, xs, n);
    ChangeWithoutWindow(e, xs, n);
  }

  // ---- Flapping ----

  datatype Tally = Tally(readings: nat, decisions: nat, resolves: nat, lost: nat)

  function Count(t: Tally, before: Engine, s: Signal, n: nat): Tally {
    match s
    case Reading(x, lost) =>
      var asked := Asks(before, x, n).Some?;
      Tally(t.readings + 1,
            t.decisions + if asked then 1 else 0,
            t.resolves,
            t.lost + if asked && lost then 1 else 0)
    case Resolve(_) => if before.active then t.(resolves := t.resolves + 1) else t
    case Reset => t
  }

  function TallyOf(e: Engine, signals: seq<Signal>, n: nat): Tally {
    if signals == [] then Tally(0, 0, 0, 0)
    else Count(TallyOf(e, Init(signals), n), Run(e, Init(signals), n), Last(signals), n)
  }

  /** Decisions not explained by a person's resolve or by a lost write. */
  function Net(t: Tally): int {
    t.decisions - t.resolves - t.lost
  }

  /** Readings the current streak can still turn into a decision. */
  function Unspent(e: Engine, n: nat): int {
    if e.streak.breaching != e.active then e.streak.count
    else if e.streak.count >= n then e.streak.count - n
    else 0
  }

  /** The readings that k decisions take. */
  function Cost(n: nat, k: int): int
    decreases if k < 0 then -k else k
  {
    if k == 0 then 0 else if k > 0 then Cost(n, k - 1) + n else Cost(n, k + 1) - n
  }

  lemma {:induction false} CostIsProduct(n: nat, k: int)
    ensures Cost(n, k) == n * k
    decreases if k < 0 then -k else k
  {
    if k > 0 { CostIsProduct(n, k - 1); } else if k < 0 { CostIsProduct(n, k + 1); }
  }

  /** Every net decision has been paid for with n readings, and the unspent ones are left over. */
  predicate Solvent(t: Tally, e: Engine, n: nat) {
    Cost(n, Net(t)) + Unspent(e, n) <= t.readings
  }

  lemma CreditStep(t: Tally, e: Engine, s: Signal, n: nat)
    requires n >= 1 && Solvent(t, e, n)
    ensures Solvent(Count(t, e, s, n), Respond(e, s, n), n)
  {
    var k := Net(t);
    var gain := Net(Count(t, e, s, n)) - k;
    assert Cost(n, k + 1) == Cost(n, k) + n && Cost(n, k - 1) == Cost(n, k) - n;
    match s
    case Reading(x, lost) =>
      if Asks(e, x, n).Some? && !lost {
        assert gain == 1;
      } else {
        assert gain == 0;
      }
    case Resolve(_) =>
      assert gain == if e.active then -1 else 0;
    case Reset =>
  }

  lemma {:induction false} FlappingCredit(e: Engine, signals: seq<Signal>, n: nat)
    requires n >= 1 && e.streak == NO_STREAK
    ensures Solvent(TallyOf(e, signals, n), Run(e, signals, n), n)
  {
    if signals == [] {
      assert Solvent(Tally(0, 0, 0, 0), e, n);
    } else {
      FlappingCredit(e, Init(signals), n);
      NextCredit(e, signals, n, TallyOf(e, Init(signals), n), Run(e, Init(signals), n));
    }
  }

  lemma NextCredit(e: Engine, signals: seq<Signal>, n: nat, t: Tally, f: Engine)
    requires n >= 1 && signals != []
    requires t == TallyOf(e, Init(signals), n) && f == Run(e, Init(signals), n)
    requires Solvent(t, f, n)
    ensures Solvent(TallyOf(e, signals, n), Run(e, signals, n), n)
  {
    CreditStep(t, f, Last(signals), n);
  }

  /** Each decision beyond the resolves and the lost writes cost n readings. */
  predicate Debounced(t: Tally, n: nat) {
    n * (t.decisions - t.resolves - t.lost) <= t.readings
  }

  /**
    * Anti-flapping: with L evaluated readings, M resolves by people and F lost writes, at most
    * M + F + L / n decisions are taken, across any restarts.
    */
  lemma {:induction false} FlappingBound(e: Engine, signals: seq<Signal>, n: nat)
    requires n >= 1 && e.streak == NO_STREAK
    ensures Debounced(TallyOf(e, signals, n), n)
  {
    FlappingCredit(e, signals, n);
    CostIsProduct(n, Net(TallyOf(e, signals, n)));
  }

  // ---- Severity ----

  /** Everything the stricter rule has reached, the looser one has reached too. */
  predicate Dominates(loose: Engine, strict: Engine) {
    && (strict.active ==> loose.active)
    && (strict.streak.breaching ==> loose.streak.breaching && loose.streak.count >= strict.streak.count)
    && (!loose.streak.breaching ==> !strict.streak.breaching && strict.streak.count >= loose.streak.count)
  }

  /** If every reading that triggers the stricter rule triggers the looser one, it is never active alone. */
  lemma {:induction false} SeverityDominance(
    loose: Engine, strict: Engine, looseXs: seq<bool>, strictXs: seq<bool>, n: nat)
    requires Dominates(loose, strict)
    requires |looseXs| == |strictXs| && forall i :: 0 <= i < |looseXs| ==> strictXs[i] ==> looseXs[i]
    ensures Dominates(Follow(loose, looseXs, n), Follow(strict, strictXs, n))
  {
    if looseXs != [] {
      SeverityDominance(loose, strict, Init(looseXs), Init(strictXs), n);
    }
  }

  // ---- Lost writes ----

  /** However many times in a row its write is lost, the next reading the same way asks again at once. */
  lemma {:induction false} LostDecisionIsRepeated(e: Engine, x: bool, k: nat, n: nat)
    requires Asks(e, x, n).Some?
    ensures var f := Run(e, seq(k, _ => Reading(x, true)), n);
            && Asks(f, x, n) == Asks(e, x, n)
            && Respond(f, Reading(x, false), n).active == x
  {
    var signals := seq(k, _ => Reading(x, true));
    if k > 0 {
      LostDecisionIsRepeated(e, x, k - 1, n);
      assert Init(signals) == seq(k - 1, _ => Reading(x, true));
    }
  }
}
