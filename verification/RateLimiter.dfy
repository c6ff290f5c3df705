/**
  * The per-client limiter map with idle eviction. The token bucket is golang.org/x/time/rate's, taken by its
  * contract: it starts full, refills at `rps` up to `burst`, and a denied request takes nothing.
  */
module RateLimiter {
  import opened AlertTypes

  datatype Bucket = Bucket(tokens: real, last: real)

  datatype Visitor = Visitor(bucket: Bucket, lastSeen: real)

  datatype Config = Config(rps: real, burst: nat, maxIdle: real)

  type Visitors = map<Id, Visitor>

  function Min(a: real, b: real): real {
    if a <= b then a else b
  }

  function TokensAt(b: Bucket, t: real, c: Config): real {
    Min(c.burst as real, b.tokens + Inflow(b.last, t, c.rps))
  }

  /** What flows into a bucket from `last` to `t`. */
  function Inflow(last: real, t: real, rps: real): real {
    if last < t then (t - last) * rps else 0.0
  }

  function Fresh(now: real, c: Config): Visitor {
    Visitor(Bucket(c.burst as real, now), now)
  }

  /** One request: whether it is admitted, and the map after it. */
  function Request(m: Visitors, ip: Id, now: real, c: Config): (Visitors, bool) {
    var v := if ip in m then m[ip] else Fresh(now, c);
    var t := TokensAt(v.bucket, now, c);
    if t >= 1.0 then (m[ip := Visitor(Bucket(t - 1.0, now), now)], true)
    else (m[ip := v.(lastSeen := now)], false)
  }

  predicate Idle(v: Visitor, now: real, c: Config) {
    now - v.lastSeen > c.maxIdle
  }

  /** One sweep of the cleanup loop. */
  function Sweep(m: Visitors, now: real, c: Config): Visitors {
    map ip | ip in m && !Idle(m[ip], now, c) :: m[ip]
  }

  datatype Event = Ask(ip: Id, at: real) | Clean(at: real)

  /** The map after the events; without eviction, sweeps do nothing. */
  function After(evs: seq<Event>, evict: bool, c: Config): Visitors {
    if evs == [] then map[] else Step(After(Init(evs), evict, c), Last(evs), evict, c)
  }

  function Step(m: Visitors, ev: Event, evict: bool, c: Config): Visitors {
    match ev
    case Ask(ip, at) => Request(m, ip, at, c).0
    case Clean(at) => if evict then Sweep(m, at, c) else m
  }

  /** The answers to the requests, in order. */
  function Answers(evs: seq<Event>, evict: bool, c: Config): seq<bool> {
    if evs == [] then []
    else
      Answers(Init(evs), evict, c)
      + if Last(evs).Ask? then [Request(After(Init(evs), evict, c), Last(evs).ip, Last(evs).at, c).1] else []
  }

  /** Time does not run backwards. */
  predicate Ordered(evs: seq<Event>) {
    evs != [] ==> Ordered(Init(evs)) && (|evs| > 1 ==> evs[|evs| - 2].at <= Last(evs).at)
  }

  predicate ValidConfig(c: Config) {
    c.rps > 0.0 && c.burst >= 1 && c.maxIdle >= 0.0
  }

  /** The tokens a client would find at time `t`: its bucket's, or a full bucket if it has none. */
  function Available(m: Visitors, ip: Id, t: real, c: Config): real {
    if ip in m then TokensAt(m[ip].bucket, t, c) else c.burst as real
  }

  /** Buckets lie in the past and between empty and full. */
  ghost predicate Sound(m: Visitors, now: real, c: Config) {
    forall ip :: ip in m ==>
      && m[ip].bucket.last <= m[ip].lastSeen <= now
      && 0.0 <= m[ip].bucket.tokens <= c.burst as real
  }

  lemma TokensInRange(b: Bucket, t: real, c: Config)
    requires ValidConfig(c) && 0.0 <= b.tokens
    ensures 0.0 <= TokensAt(b, t, c) <= c.burst as real
  {
    if b.last < t { assert (t - b.last) * c.rps >= 0.0; }
  }

  lemma SoundStep(m: Visitors, now: real, ip: Id, at: real, c: Config)
    requires ValidConfig(c) && Sound(m, now, c) && now <= at
    ensures Sound(Request(m, ip, at, c).0, at, c) && Sound(Sweep(m, at, c), at, c) && Sound(m, at, c)
  {
    var v := if ip in m then m[ip] else Fresh(at, c);
    TokensInRange(v.bucket, at, c);
  }

  lemma {:induction false} SoundAfter(evs: seq<Event>, evict: bool, c: Config, now: real)
    requires ValidConfig(c) && Ordered(evs) && (evs != [] ==> Last(evs).at <= now)
    ensures Sound(After(evs, evict, c), now, c)
  {
    if evs != [] {
      var ev := Last(evs);
      SoundAfter(Init(evs), evict, c, ev.at);
      SoundStep(After(Init(evs), evict, c), ev.at, if ev.Ask? then ev.ip else "", ev.at, c);
    }
  }

  // ---- Eviction cannot be noticed ----

  /** From `now` on, no client can tell the two maps apart. */
  ghost predicate Alike(m: Visitors, k: Visitors, now: real, c: Config) {
    forall ip, t :: t >= now ==> Available(m, ip, t, c) == Available(k, ip, t, c)
  }

  /** An idle client's bucket has refilled if the idle time is long enough. */
  lemma IdleIsFull(v: Visitor, now: real, t: real, c: Config)
    requires ValidConfig(c) && c.rps * c.maxIdle >= c.burst as real
    requires Idle(v, now, c) && v.bucket.last <= v.lastSeen && v.bucket.tokens >= 0.0 && t >= now
    ensures TokensAt(v.bucket, t, c) == c.burst as real
  {
    var elapsed := t - v.bucket.last;
    MultiplyOrdered(c.maxIdle, elapsed, c.rps);
    var inflow, needed := elapsed * c.rps, c.maxIdle * c.rps;
    assert needed == c.rps * c.maxIdle && inflow >= needed;
    assert v.bucket.last < t && TokensAt(v.bucket, t, c) == Min(c.burst as real, v.bucket.tokens + inflow);
  }

  lemma SweepIsInvisible(m: Visitors, now: real, c: Config)
    requires ValidConfig(c) && c.rps * c.maxIdle >= c.burst as real && Sound(m, now, c)
    ensures Alike(Sweep(m, now, c), m, now, c)
  {
    forall ip, t | t >= now ensures Available(Sweep(m, now, c), ip, t, c) == Available(m, ip, t, c) {
      if ip in m && Idle(m[ip], now, c) {
        IdleIsFull(m[ip], now, t, c);
      }
    }
  }

  /** What a request sees and leaves depends on the available tokens only. */
  lemma RequestByAvailable(m: Visitors, ip: Id, now: real, c: Config, other: Id, t: real)
    requires ValidConfig(c) && t >= now
    ensures var a := Available(m, ip, now, c);
            && Request(m, ip, now, c).1 == (a >= 1.0)
            && Available(Request(m, ip, now, c).0, other, t, c) ==
               if other == ip && a >= 1.0 then TokensAt(Bucket(a - 1.0, now), t, c) else Available(m, other, t, c)
  {
    assert (t - now) * c.rps >= 0.0;
  }

  lemma RequestsAlike(m: Visitors, k: Visitors, ip: Id, now: real, c: Config)
    requires ValidConfig(c) && Alike(m, k, now, c)
    ensures Request(m, ip, now, c).1 == Request(k, ip, now, c).1
    ensures Alike(Request(m, ip, now, c).0, Request(k, ip, now, c).0, now, c)
  {
    RequestByAvailable(m, ip, now, c, ip, now);
    RequestByAvailable(k, ip, now, c, ip, now);
    forall other, t | t >= now
      ensures Available(Request(m, ip, now, c).0, other, t, c) == Available(Request(k, ip, now, c).0, other, t, c)
    {
      RequestByAvailable(m, ip, now, c, other, t);
      RequestByAvailable(k, ip, now, c, other, t);
    }
  }

  /** If idle clients have refilled by the time they are evicted, eviction changes no answer. */
  lemma {:induction false} EvictionIsInvisible(evs: seq<Event>, c: Config)
    requires ValidConfig(c) && Ordered(evs) && c.rps * c.maxIdle >= c.burst as real
    ensures Answers(evs, true, c) == Answers(evs, false, c)
    ensures forall now :: (evs != [] ==> Last(evs).at <= now) ==> Alike(After(evs, true, c), After(evs, false, c), now, c)
  {
    if evs != [] {
      EvictionIsInvisible(Init(evs), c);
      var m, k := After(Init(evs), true, c), After(Init(evs), false, c);
      var at := Last(evs).at;
      assert Alike(m, k, at, c);
      match Last(evs)
      case Ask(ip, _) => RequestsAlike(m, k, ip, at, c);
      case Clean(_) =>
        SoundAfter(Init(evs), true, c, at);
        SweepIsInvisible(m, at, c);
    }
  }

  // ---- Otherwise it can be ----

  function Batch(ip: Id, at: real, k: nat): seq<Event> {
    seq(k, _ => Ask(ip, at))
  }

  predicate AllTrue(answers: seq<bool>, from: nat) {
    forall i :: from <= i < |answers| ==> answers[i]
  }

  /** A batch of k that found `a` tokens: whether all were admitted, and the tokens left if so. */
  predicate Spent(a: real, k: nat, all: bool, left: real) {
    (all <==> k == 0 || a >= k as real) && (all ==> left == a - k as real)
  }

  lemma SpendOne(a: real, k: nat, all: bool, left: real, answer: bool, left': real)
    requires Spent(a, k, all, left) && answer == (left >= 1.0) && (answer ==> left' == left - 1.0)
    ensures Spent(a, k + 1, all && answer, left')
  {
  }

  /** k requests at one instant are all admitted exactly if k tokens are there. */
  lemma {:induction false} BatchAdmission(evs: seq<Event>, ip: Id, at: real, k: nat, evict: bool, c: Config)
    requires ValidConfig(c)
    ensures var all := evs + Batch(ip, at, k);
            var from := |Answers(evs, evict, c)|;
            && |Answers(all, evict, c)| == from + k
            && Spent(Available(After(evs, evict, c), ip, at, c), k, AllTrue(Answers(all, evict, c), from),
                     Available(After(all, evict, c), ip, at, c))
  {
    hide After, Answers, Available, Spent, AllTrue;
    var all := evs + Batch(ip, at, k);
    var from := |Answers(evs, evict, c)|;
    if k == 0 {
      assert all == evs;
      NothingSpent(evs, ip, at, evict, c);
    } else {
      BatchAdmission(evs, ip, at, k - 1, evict, c);
      BatchStep(evs, ip, at, k, evict, c);
    }
  }

  lemma NothingSpent(evs: seq<Event>, ip: Id, at: real, evict: bool, c: Config)
    ensures var a := Available(After(evs, evict, c), ip, at, c);
            Spent(a, 0, AllTrue(Answers(evs, evict, c), |Answers(evs, evict, c)|), a)
  {
    hide After, Answers, Available;
  }

  lemma BatchStep(evs: seq<Event>, ip: Id, at: real, k: nat, evict: bool, c: Config)
    requires ValidConfig(c) && k >= 1
    requires var before := evs + Batch(ip, at, k - 1);
             var from := |Answers(evs, evict, c)|;
             && |Answers(before, evict, c)| == from + k - 1
             && Spent(Available(After(evs, evict, c), ip, at, c), k - 1, AllTrue(Answers(before, evict, c), from),
                      Available(After(before, evict, c), ip, at, c))
    ensures var all := evs + Batch(ip, at, k);
            var from := |Answers(evs, evict, c)|;
            && |Answers(all, evict, c)| == from + k
            && Spent(Available(After(evs, evict, c), ip, at, c), k, AllTrue(Answers(all, evict, c), from),
                     Available(After(all, evict, c), ip, at, c))
  {
    hide *;
    BatchSnoc(evs, ip, at, k);
    AskOnTop(evs + Batch(ip, at, k - 1), ip, at, |Answers(evs, evict, c)|, Available(After(evs, evict, c), ip, at, c), k, evict, c);
  }

  lemma BatchSnoc(evs: seq<Event>, ip: Id, at: real, k: nat)
    requires k >= 1
    ensures evs + Batch(ip, at, k) == (evs + Batch(ip, at, k - 1)) + [Ask(ip, at)]
  {
  }

  lemma AskOnTop(before: seq<Event>, ip: Id, at: real, from: nat, a: real, k: nat, evict: bool, c: Config)
    requires ValidConfig(c) && k >= 1 && |Answers(before, evict, c)| == from + k - 1
    requires Spent(a, k - 1, AllTrue(Answers(before, evict, c), from), Available(After(before, evict, c), ip, at, c))
    ensures var all := before + [Ask(ip, at)];
            && |Answers(all, evict, c)| == from + k
            && Spent(a, k, AllTrue(Answers(all, evict, c), from), Available(After(all, evict, c), ip, at, c))
  {
    var all := before + [Ask(ip, at)];
    var m := After(before, evict, c);
    assert Init(all) == before && Last(all) == Ask(ip, at);
    assert After(all, evict, c) == Request(m, ip, at, c).0;
    hide *;
    LastAnswer(all, evict, c, from);
    AskWithTokens(m, ip, at, c);
    SpendOne(a, k - 1, AllTrue(Answers(before, evict, c), from), Available(m, ip, at, c), Request(m, ip, at, c).1,
             Available(After(all, evict, c), ip, at, c));
  }

  /** A request at the instant of the last one takes a token if there is one. */
  lemma AskWithTokens(m: Visitors, ip: Id, at: real, c: Config)
    requires ValidConfig(c)
    ensures var a := Available(m, ip, at, c);
            && Request(m, ip, at, c).1 == (a >= 1.0)
            && (a >= 1.0 ==> Available(Request(m, ip, at, c).0, ip, at, c) == a - 1.0)
  {
    RequestByAvailable(m, ip, at, c, ip, at);
    AvailableAtMostBurst(m, ip, at, c);
  }

  lemma LastAnswer(evs: seq<Event>, evict: bool, c: Config, from: nat)
    requires evs != [] && Last(evs).Ask? && from <= |Answers(Init(evs), evict, c)|
    ensures var answer := Request(After(Init(evs), evict, c), Last(evs).ip, Last(evs).at, c).1;
            && |Answers(evs, evict, c)| == |Answers(Init(evs), evict, c)| + 1
            && (AllTrue(Answers(evs, evict, c), from) <==> AllTrue(Answers(Init(evs), evict, c), from) && answer)
  {
    var before, after := Answers(Init(evs), evict, c), Answers(evs, evict, c);
    assert after == before + [Last(after)];
    assert forall i :: 0 <= i < |before| ==> after[i] == before[i];
  }

  lemma AvailableAtMostBurst(m: Visitors, ip: Id, t: real, c: Config)
    ensures Available(m, ip, t, c) <= c.burst as real
  {
  }

  lemma MultiplyOrdered(a: real, b: real, c: real)
    requires c > 0.0
    ensures a <= b ==> a * c <= b * c
  {
  }

  /** An instant past the idle limit at which a drained bucket has not refilled. */
  function EarlySweep(c: Config): (t: real)
    requires ValidConfig(c) && c.rps * c.maxIdle < c.burst as real
    ensures t > c.maxIdle && t * c.rps < c.burst as real
  {
    var full := c.burst as real / c.rps;
    assert full * c.rps == c.burst as real;
    assert c.maxIdle < full by { MultiplyOrdered(full, c.maxIdle, c.rps); }
    var t := (c.maxIdle + full) / 2.0;
    assert t * c.rps < full * c.rps;
    t
  }

  /** Drain the bucket, wait just past the idle limit, sweep, and ask for a full burst again. */
  function Drain(c: Config): seq<Event> {
    Batch("x", 0.0, c.burst)
  }

  lemma DrainOne(m: Visitors, c: Config, k: nat)
    requires ValidConfig(c) && 1 <= k <= c.burst
    requires if k == 1 then "x" !in m
             else "x" in m && m["x"] == Visitor(Bucket((c.burst - (k - 1)) as real, 0.0), 0.0)
    ensures var after := Request(m, "x", 0.0, c).0;
            "x" in after && after["x"] == Visitor(Bucket((c.burst - k) as real, 0.0), 0.0)
  {
  }

  lemma DrainedVisitor(c: Config, evict: bool, k: nat)
    requires ValidConfig(c) && 1 <= k <= c.burst
    ensures var m := After(Batch("x", 0.0, k), evict, c);
            "x" in m && m["x"] == Visitor(Bucket((c.burst - k) as real, 0.0), 0.0)
  {
    hide Request;
    var before := Batch("x", 0.0, k - 1);
    assert Batch("x", 0.0, k) == before + [Ask("x", 0.0)] && (k == 1 ==> before == []);
    assert k == 1 ==> After(before, evict, c) == map[];
    hide Batch, After;
    if k > 1 { DrainedVisitor(c, evict, k - 1); }
    AskAppended(before, "x", 0.0, evict, c);
    DrainOne(After(before, evict, c), c, k);
  }

  lemma AskAppended(evs: seq<Event>, ip: Id, at: real, evict: bool, c: Config)
    ensures After(evs + [Ask(ip, at)], evict, c) == Request(After(evs, evict, c), ip, at, c).0
  {
    assert Init(evs + [Ask(ip, at)]) == evs;
  }

  lemma OrderedDrain(c: Config, t: real)
    requires ValidConfig(c) && t > 0.0
    ensures Ordered(Drain(c) + [Clean(t)] + Batch("x", t, c.burst))
  {
    hide Ordered;
    EmptyIsOrdered();
    OrderedBatch([], 0.0, c.burst);
    assert [] + Drain(c) == Drain(c);
    OrderedAppend(Drain(c), Clean(t));
    OrderedBatch(Drain(c) + [Clean(t)], t, c.burst);
  }

  lemma EmptyIsOrdered()
    ensures Ordered([])
  {
  }

  lemma OrderedAppend(evs: seq<Event>, ev: Event)
    requires Ordered(evs) && (evs != [] ==> Last(evs).at <= ev.at)
    ensures Ordered(evs + [ev])
  {
    assert Init(evs + [ev]) == evs;
  }

  lemma {:induction false} OrderedBatch(evs: seq<Event>, at: real, k: nat)
    requires Ordered(evs) && (evs != [] ==> Last(evs).at <= at)
    ensures var all := evs + Batch("x", at, k);
            Ordered(all) && (all != [] ==> Last(all).at <= at)
  {
    hide Ordered;
    if k == 0 {
      assert evs + Batch("x", at, k) == evs;
    } else {
      hide Batch;
      OrderedBatch(evs, at, k - 1);
      BatchSnoc(evs, "x", at, k);
      OrderedAppend(evs + Batch("x", at, k - 1), Ask("x", at));
    }
  }

  /** Both limiters have given the same number of answers. */
  lemma {:induction false} AnswerCount(evs: seq<Event>, c: Config)
    ensures |Answers(evs, true, c)| == |Answers(evs, false, c)|
  {
    if evs != [] { AnswerCount(Init(evs), c); }
  }

  /** After the sweep, the evicted client has a full burst and the remembered one what has flowed in. */
  lemma TokensAfterSweep(c: Config, t: real)
    requires ValidConfig(c) && t > c.maxIdle && t * c.rps < c.burst as real
    ensures var pre := Drain(c) + [Clean(t)];
            && Available(After(pre, true, c), "x", t, c) == c.burst as real
            && Available(After(pre, false, c), "x", t, c) == t * c.rps
  {
    hide *;
    CleanOnTop(Drain(c), t, c);
    DrainedClient(c, true);
    DrainedClient(c, false);
    KeptOrForgotten(After(Drain(c), false, c), After(Drain(c), true, c), t, c);
  }

  lemma CleanOnTop(evs: seq<Event>, t: real, c: Config)
    ensures After(evs + [Clean(t)], false, c) == After(evs, false, c)
    ensures After(evs + [Clean(t)], true, c) == Sweep(After(evs, true, c), t, c)
  {
    assert Init(evs + [Clean(t)]) == evs;
  }

  lemma DrainedClient(c: Config, evict: bool)
    requires ValidConfig(c)
    ensures var m := After(Drain(c), evict, c); "x" in m && m["x"] == Visitor(Bucket(0.0, 0.0), 0.0)
  {
    DrainedVisitor(c, evict, c.burst);
  }

  lemma KeptOrForgotten(kept: Visitors, forgot: Visitors, t: real, c: Config)
    requires ValidConfig(c) && t > c.maxIdle && t * c.rps < c.burst as real
    requires "x" in kept && kept["x"] == Visitor(Bucket(0.0, 0.0), 0.0)
    requires "x" in forgot && forgot["x"] == Visitor(Bucket(0.0, 0.0), 0.0)
    ensures Available(Sweep(forgot, t, c), "x", t, c) == c.burst as real
    ensures Available(kept, "x", t, c) == t * c.rps
  {
    hide TokensAt;
    assert "x" !in Sweep(forgot, t, c);
    DrainedTokens(t, c);
  }

  lemma DrainedTokens(t: real, c: Config)
    requires ValidConfig(c) && t > 0.0 && t * c.rps < c.burst as real
    ensures TokensAt(Bucket(0.0, 0.0), t, c) == t * c.rps
  {
    assert (t - 0.0) * c.rps == t * c.rps;
  }

  /** If idle clients may not have refilled, some run of requests and sweeps gives them more than their due. */
  lemma {:induction false} EvictionIsVisible(c: Config) returns (evs: seq<Event>)
    requires ValidConfig(c) && c.rps * c.maxIdle < c.burst as real
    ensures Ordered(evs) && Answers(evs, true, c) != Answers(evs, false, c)
  {
    hide After, Answers, Available, Ordered, Batch, AllTrue;
    var t := EarlySweep(c);
    var pre := Drain(c) + [Clean(t)];
    evs := pre + Batch("x", t, c.burst);
    OrderedDrain(c, t);
    AnswerCount(pre, c);
    TokensAfterSweep(c, t);
    BatchAdmission(pre, "x", t, c.burst, true, c);
    BatchAdmission(pre, "x", t, c.burst, false, c);
  }

  // ---- Admission ----

  /** Requests of a client admitted in the part of a run that follows `pre`. */
  function Admitted(pre: seq<Event>, win: seq<Event>, ip: Id, evict: bool, c: Config): nat {
    if win == [] then 0
    else
      var ev := Last(win);
      Admitted(pre, Init(win), ip, evict, c)
      + if Admits(After(pre + Init(win), evict, c), ev, ip, c) then 1 else 0
  }

  lemma Refill(m: Visitors, ip: Id, t: real, t': real, c: Config)
    requires ValidConfig(c) && t <= t'
    ensures Available(m, ip, t', c) <= Available(m, ip, t, c) + c.rps * (t' - t)
  {
    hide TokensAt, Inflow;
    InflowGrows(t, t, t', c.rps);
    if ip in m {
      RefillBucket(m[ip].bucket, t, t', c);
    }
  }

  lemma RefillBucket(b: Bucket, t: real, t': real, c: Config)
    requires ValidConfig(c) && t <= t'
    ensures TokensAt(b, t', c) <= TokensAt(b, t, c) + c.rps * (t' - t)
  {
    hide Inflow;
    InflowGrows(b.last, t, t', c.rps);
  }

  lemma InflowGrows(last: real, t: real, t': real, rps: real)
    requires rps > 0.0 && t <= t'
    ensures rps * (t' - t) >= 0.0 && Inflow(last, t', rps) <= Inflow(last, t, rps) + rps * (t' - t)
  {
    if last < t {
      assert (t' - last) * rps == (t - last) * rps + rps * (t' - t);
    } else if last < t' {
      assert (t' - last) * rps == rps * (t' - t) - rps * (last - t);
    }
  }

  predicate Since(win: seq<Event>, t0: real) {
    forall i :: 0 <= i < |win| ==> t0 <= win[i].at
  }

  /** Where a window that starts at `t0` stands. */
  function EndOf(win: seq<Event>, t0: real): real {
    if win == [] then t0 else Last(win).at
  }

  predicate Admits(m: Visitors, ev: Event, ip: Id, c: Config) {
    ev.Ask? && ev.ip == ip && Request(m, ip, ev.at, c).1
  }

  /** `avail` tokens at `t` and the inflow since then cover a possible admission and `avail'` at `t'`. */
  predicate Covered(hit: bool, avail: real, avail': real, t: real, t': real, c: Config) {
    (if hit then 1.0 else 0.0) + avail' <= avail + c.rps * (t' - t)
  }

  /** Admissions and tokens left never exceed a full bucket and what has flowed in since the window opened. */
  predicate Balanced(admitted: nat, avail: real, t0: real, t: real, c: Config) {
    admitted as real + avail <= c.burst as real + c.rps * (t - t0)
  }

  lemma StaysBalanced(admitted: nat, hit: bool, avail: real, avail': real, t0: real, t: real, t': real, c: Config)
    requires Balanced(admitted, avail, t0, t, c) && Covered(hit, avail, avail', t, t', c)
    ensures Balanced(admitted + if hit then 1 else 0, avail', t0, t', c)
  {
    assert c.rps * (t' - t0) == c.rps * (t - t0) + c.rps * (t' - t);
  }

  /** One event: what it admits comes out of what was there and what has flowed in. */
  lemma EventAccount(m: Visitors, ev: Event, ip: Id, t: real, evict: bool, c: Config)
    requires ValidConfig(c) && t <= ev.at
    requires evict ==> c.rps * c.maxIdle >= c.burst as real && Sound(m, ev.at, c)
    ensures Covered(Admits(m, ev, ip, c), Available(m, ip, t, c), Available(Step(m, ev, evict, c), ip, ev.at, c),
                    t, ev.at, c)
  {
    Refill(m, ip, t, ev.at, c);
    match ev
    case Ask(other, at) => RequestByAvailable(m, other, at, c, ip, at);
    case Clean(at) => if evict { SweepIsInvisible(m, at, c); }
  }

  lemma {:induction false} WindowAccount(pre: seq<Event>, win: seq<Event>, ip: Id, t0: real, evict: bool, c: Config)
    requires ValidConfig(c) && Ordered(pre + win)
    requires (pre != [] ==> Last(pre).at <= t0) && Since(win, t0)
    requires evict ==> c.rps * c.maxIdle >= c.burst as real
    ensures Balanced(Admitted(pre, win, ip, evict, c), Available(After(pre + win, evict, c), ip, EndOf(win, t0), c),
                     t0, EndOf(win, t0), c)
  {
    hide After, Available, Ordered, Balanced, Admitted, Since;
    if win == [] {
      WindowOpens(pre, ip, t0, evict, c);
      assert pre + win == pre;
    } else {
      PrefixOfWindow(pre, win, t0);
      WindowAccount(pre, Init(win), ip, t0, evict, c);
      WindowGrows(pre, win, ip, t0, evict, c);
    }
  }

  lemma WindowOpens(pre: seq<Event>, ip: Id, t0: real, evict: bool, c: Config)
    ensures Balanced(Admitted(pre, [], ip, evict, c), Available(After(pre, evict, c), ip, t0, c), t0, t0, c)
  {
    AvailableAtMostBurst(After(pre, evict, c), ip, t0, c);
  }

  lemma WindowGrows(pre: seq<Event>, win: seq<Event>, ip: Id, t0: real, evict: bool, c: Config)
    requires ValidConfig(c) && win != [] && Ordered(pre + Init(win)) && EndOf(Init(win), t0) <= Last(win).at
    requires pre + Init(win) != [] ==> Last(pre + Init(win)).at <= Last(win).at
    requires evict ==> c.rps * c.maxIdle >= c.burst as real
    requires var rest := Init(win);
             Balanced(Admitted(pre, rest, ip, evict, c), Available(After(pre + rest, evict, c), ip, EndOf(rest, t0), c),
                      t0, EndOf(rest, t0), c)
    ensures Balanced(Admitted(pre, win, ip, evict, c), Available(After(pre + win, evict, c), ip, Last(win).at, c),
                     t0, Last(win).at, c)
  {
    hide Available, Step, Sound, Ordered, Balanced, Covered, Admits;
    var ev, rest := Last(win), Init(win);
    assert Init(pre + win) == pre + rest && Last(pre + win) == ev;
    var m := After(pre + rest, evict, c);
    SoundAfter(pre + rest, evict, c, ev.at);
    EventAccount(m, ev, ip, EndOf(rest, t0), evict, c);
    StaysBalanced(Admitted(pre, rest, ip, evict, c), Admits(m, ev, ip, c), Available(m, ip, EndOf(rest, t0), c),
                  Available(Step(m, ev, evict, c), ip, ev.at, c), t0, EndOf(rest, t0), ev.at, c);
  }

  lemma PrefixOfWindow(pre: seq<Event>, win: seq<Event>, t0: real)
    requires Ordered(pre + win) && win != []
    requires (pre != [] ==> Last(pre).at <= t0) && Since(win, t0)
    ensures Init(pre + win) == pre + Init(win) && Last(pre + win) == Last(win)
    ensures Ordered(pre + Init(win)) && EndOf(Init(win), t0) <= Last(win).at && Since(Init(win), t0)
    ensures pre + Init(win) != [] ==> Last(pre + Init(win)).at <= Last(win).at
  {
    hide Ordered;
    InitOfConcat(pre, win);
    OrderedInit(pre + win);
    if |win| > 1 {
      InitOfConcat(pre, Init(win));
    }
  }

  lemma InitOfConcat(pre: seq<Event>, win: seq<Event>)
    requires win != []
    ensures Init(pre + win) == pre + Init(win) && Last(pre + win) == Last(win)
  {
  }

  lemma OrderedInit(evs: seq<Event>)
    requires Ordered(evs) && evs != []
    ensures Ordered(Init(evs)) && (Init(evs) != [] ==> Last(Init(evs)).at <= Last(evs).at)
  {
  }

  /**
    * In any window of length T a client is admitted at most burst + rps T times, by the evicting limiter
    * under the refill condition and by the one that never evicts always.
    */
  lemma {:induction false} AdmissionBound(pre: seq<Event>, win: seq<Event>, ip: Id, t0: real, length: real, evict: bool, c: Config)
    requires ValidConfig(c) && Ordered(pre + win) && length >= 0.0
    requires (pre != [] ==> Last(pre).at <= t0) && forall i :: 0 <= i < |win| ==> t0 <= win[i].at <= t0 + length
    requires evict ==> c.rps * c.maxIdle >= c.burst as real
    ensures Admitted(pre, win, ip, evict, c) as real <= c.burst as real + c.rps * length
  {
    hide After, Ordered, Admitted;
    assert Since(win, t0);
    WindowAccount(pre, win, ip, t0, evict, c);
    var end := EndOf(win, t0);
    var m := After(pre + win, evict, c);
    SoundAfter(pre + win, evict, c, end);
    if ip in m { TokensInRange(m[ip].bucket, end, c); }
    Settle(Admitted(pre, win, ip, evict, c), Available(m, ip, end, c), t0, end, length, c);
  }

  lemma Settle(admitted: nat, avail: real, t0: real, t: real, length: real, c: Config)
    requires ValidConfig(c) && Balanced(admitted, avail, t0, t, c) && avail >= 0.0 && t - t0 <= length
    ensures admitted as real <= c.burst as real + c.rps * length
  {
    MultiplyOrdered(t - t0, length, c.rps);
    var flow, most := c.rps * (t - t0), c.rps * length;
    assert flow == (t - t0) * c.rps && most == length * c.rps;
    assert flow <= most;
  }

  // ---- Who is remembered, and who is always admitted ----

  predicate AsksFor(ev: Event, ip: Id) {
    ev.Ask? && ev.ip == ip
  }

  /** Event `k` is the client's latest request, and no sweep since then came more than maxIdle after it. */
  ghost predicate RememberedSince(evs: seq<Event>, ip: Id, c: Config, k: nat) {
    && k < |evs| && AsksFor(evs[k], ip)
    && forall j :: k < j < |evs| ==> !AsksFor(evs[j], ip) && (evs[j].Clean? ==> evs[j].at - evs[k].at <= c.maxIdle)
  }

  /** The map holds exactly the clients no sweep has found idle for more than maxIdle, with the time of their latest request. */
  lemma {:induction false} RemembersExactly(evs: seq<Event>, ip: Id, c: Config)
    ensures var m := After(evs, true, c);
            && (ip in m <==> exists k: nat :: RememberedSince(evs, ip, c, k))
            && forall k: nat :: RememberedSince(evs, ip, c, k) ==> ip in m && m[ip].lastSeen == evs[k].at
  {
    hide RememberedSince, Step;
    if evs == [] {
      forall k: nat ensures !RememberedSince(evs, ip, c, k) { NotRememberedBeyond(evs, ip, c, k); }
    } else {
      RemembersExactly(Init(evs), ip, c);
      var before, after, ev := After(Init(evs), true, c), After(evs, true, c), Last(evs);
      UnfoldAfter(evs, true, c);
      StepRemembers(before, ev, ip, c);
      hide After;
      forall k: nat | RememberedSince(evs, ip, c, k)
        ensures k < |evs| && ip in after && after[ip].lastSeen == evs[k].at
      {
        NotRememberedBeyond(evs, ip, c, k);
        RememberedStep(evs, ip, c, k);
      }
      if ip in after {
        var k: nat := |evs| - 1;
        if !AsksFor(ev, ip) { k :| RememberedSince(Init(evs), ip, c, k); }
        NotRememberedBeyond(Init(evs), ip, c, k);
        RememberedStep(evs, ip, c, k);
      }
    }
  }

  lemma NotRememberedBeyond(evs: seq<Event>, ip: Id, c: Config, k: nat)
    ensures RememberedSince(evs, ip, c, k) ==> k < |evs|
  {
  }

  lemma StepRemembers(before: Visitors, ev: Event, ip: Id, c: Config)
    ensures var after := Step(before, ev, true, c);
            if AsksFor(ev, ip) then ip in after && after[ip].lastSeen == ev.at
            else
              && (ip in after <==> ip in before && (ev.Clean? ==> ev.at - before[ip].lastSeen <= c.maxIdle))
              && (ip in after ==> after[ip] == before[ip])
  {
    hide TokensAt;
  }

  lemma UnfoldAfter(evs: seq<Event>, evict: bool, c: Config)
    requires evs != []
    ensures After(evs, evict, c) == Step(After(Init(evs), evict, c), Last(evs), evict, c)
  {
  }

  lemma RememberedStep(evs: seq<Event>, ip: Id, c: Config, k: nat)
    requires evs != []
    ensures RememberedSince(evs, ip, c, k) <==>
            if k == |evs| - 1 then AsksFor(Last(evs), ip)
            else
              && RememberedSince(Init(evs), ip, c, k) && !AsksFor(Last(evs), ip)
              && (Last(evs).Clean? ==> Last(evs).at - Init(evs)[k].at <= c.maxIdle)
    ensures RememberedSince(Init(evs), ip, c, k) ==> Init(evs)[k] == evs[k]
  {
    assert forall j :: 0 <= j < |evs| - 1 ==> Init(evs)[j] == evs[j];
    assert evs[|evs| - 1] == Last(evs);
  }

  /** A visitor's time is that of one of its requests. */
  lemma {:induction false} LastSeenWasAsked(evs: seq<Event>, ip: Id, evict: bool, c: Config) returns (k: nat)
    requires ip in After(evs, evict, c)
    ensures k < |evs| && AsksFor(evs[k], ip) && evs[k].at == After(evs, evict, c)[ip].lastSeen
  {
    hide After, TokensAt;
    NobodyAtFirst(evict, c);
    UnfoldAfter(evs, evict, c);
    if AsksFor(Last(evs), ip) {
      k := |evs| - 1;
    } else {
      k := LastSeenWasAsked(Init(evs), ip, evict, c);
      assert Init(evs)[k] == evs[k];
    }
  }

  lemma NobodyAtFirst(evict: bool, c: Config)
    ensures After([], evict, c) == map[]
  {
  }

  /** A client whose requests all lie at least the time of one token back is admitted, whatever others do. */
  lemma {:induction false} PacedClientIsAdmitted(evs: seq<Event>, ip: Id, at: real, evict: bool, c: Config)
    requires ValidConfig(c) && Ordered(evs) && (evs != [] ==> Last(evs).at <= at)
    requires forall k :: 0 <= k < |evs| && AsksFor(evs[k], ip) ==> (at - evs[k].at) * c.rps >= 1.0
    ensures Request(After(evs, evict, c), ip, at, c).1
  {
    hide After, Ordered, TokensAt;
    var m := After(evs, evict, c);
    SoundAfter(evs, evict, c, at);
    if ip in m {
      var k := LastSeenWasAsked(evs, ip, evict, c);
      TokenFlowsIn(m[ip].bucket, m[ip].lastSeen, at, c);
    } else {
      FreshHasToken(at, c);
    }
  }

  lemma FreshHasToken(at: real, c: Config)
    requires ValidConfig(c)
    ensures TokensAt(Fresh(at, c).bucket, at, c) >= 1.0
  {
  }

  lemma TokenFlowsIn(b: Bucket, seen: real, at: real, c: Config)
    requires ValidConfig(c) && b.tokens >= 0.0 && b.last <= seen <= at && (at - seen) * c.rps >= 1.0
    ensures TokensAt(b, at, c) >= 1.0
  {
    hide Inflow;
    InflowAtLeast(b.last, seen, at, c.rps);
  }

  lemma InflowAtLeast(last: real, seen: real, at: real, rps: real)
    requires rps > 0.0 && last <= seen <= at
    ensures Inflow(last, at, rps) >= (at - seen) * rps
  {
    MultiplyOrdered(at - seen, if last < at then at - last else 0.0, rps);
  }

  /** The limiter: `allow` and the sweep on its map field. */
  class IpRateLimiter {
    var visitors: Visitors
    const config: Config

    constructor (config: Config)
      ensures visitors == map[] && this.config == config
    {
      visitors, this.config := map[], config;
    }

    method Allow(ip: Id, now: real) returns (allowed: bool)
      modifies this
      ensures (visitors, allowed) == Request(old(visitors), ip, now, config)
      ensures ip in visitors && visitors[ip].lastSeen == now
      ensures ip !in old(visitors) ==> (allowed <==> config.burst >= 1)
      ensures visitors - {ip} == old(visitors) - {ip}
    {
      if ip !in visitors {
        visitors := visitors[ip := Fresh(now, config)];
      }
      var v := visitors[ip].(lastSeen := now);
      var tokens := TokensAt(v.bucket, now, config);
      allowed := tokens >= 1.0;
      if allowed {
        v := v.(bucket := Bucket(tokens - 1.0, now));
      }
      visitors := visitors[ip := v];
      assert visitors == old(visitors)[ip := v];
    }

    method CleanUp(now: real)
      modifies this
      ensures visitors == Sweep(old(visitors), now, config)
      ensures visitors == map ip | ip in old(visitors) && now - old(visitors)[ip].lastSeen <= config.maxIdle :: old(visitors)[ip]
    {
      var rest := visitors.Keys;
      while rest != {}
        invariant rest <= visitors.Keys <= old(visitors).Keys
        invariant forall ip :: ip in visitors ==> visitors[ip] == old(visitors)[ip]
        invariant forall ip :: ip in old(visitors) && ip !in rest ==>
                    (ip in visitors <==> !Idle(old(visitors)[ip], now, config))
        decreases rest
      {
        var ip :| ip in rest;
        if now - visitors[ip].lastSeen > config.maxIdle {
          visitors := visitors - {ip};
        }
        rest := rest - {ip};
      }
    }
  }
}
