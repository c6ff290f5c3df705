/** The bounded channel between the MQTT callback and the workers: a full queue drops, it never blocks. */
module JobQueue {
  import opened AlertTypes

  datatype Job = Job(topic: string, payload: seq<int>)

  datatype Op = Offer(job: Job) | Take

  /** The queue and everything that ever happened to it. */
  datatype Log = Log(queue: seq<Job>, taken: seq<Job>, dropped: seq<Job>, offered: seq<Job>)

  const EMPTY := Log([], [], [], [])

  /** A worker's receive waits while the queue is empty, so such a `Take` does not happen. */
  function Step(l: Log, op: Op, capacity: nat): Log {
    match op
    case Offer(job) =>
      if |l.queue| < capacity then l.(queue := l.queue + [job], offered := l.offered + [job])
      else l.(dropped := l.dropped + [job], offered := l.offered + [job])
    case Take =>
      if l.queue == [] then l else l.(queue := l.queue[1..], taken := l.taken + [l.queue[0]])
  }

  function Run(ops: seq<Op>, capacity: nat): Log {
    if ops == [] then EMPTY else Step(Run(Init(ops), capacity), Last(ops), capacity)
  }

  /** `idx` picks `kept` out of `from`, in order. */
  ghost predicate Picks(from: seq<Job>, idx: seq<nat>, kept: seq<Job>) {
    && |idx| == |kept|
    && (forall i :: 0 <= i < |idx| ==> idx[i] < |from| && from[idx[i]] == kept[i])
    && (forall i, j :: 0 <= i < j < |idx| ==> idx[i] < idx[j])
  }

  /** What came out and what is still queued, one after the other, is what was offered with the drops left out. */
  lemma {:induction false} OrderIsKept(ops: seq<Op>, capacity: nat) returns (idx: seq<nat>)
    ensures var l := Run(ops, capacity); Picks(l.offered, idx, l.taken + l.queue)
  {
    hide Step, Picks;
    if ops == [] {
      idx := [];
      PicksNothing();
    } else {
      idx := OrderIsKept(Init(ops), capacity);
      idx := StepKeepsOrder(Run(Init(ops), capacity), idx, Last(ops), capacity);
    }
  }

  lemma PicksNothing()
    ensures Picks([], [], [] + [])
  {
  }

  lemma StepKeepsOrder(l: Log, idx: seq<nat>, op: Op, capacity: nat) returns (idx': seq<nat>)
    requires Picks(l.offered, idx, l.taken + l.queue)
    ensures var l' := Step(l, op, capacity); Picks(l'.offered, idx', l'.taken + l'.queue)
  {
    var l' := Step(l, op, capacity);
    idx' := idx;
    if op.Offer? && |l.queue| < capacity {
      idx' := idx + [|l.offered|];
      assert l'.taken + l'.queue == (l.taken + l.queue) + [op.job];
    } else {
      assert l'.taken + l'.queue == l.taken + l.queue;
    }
  }

  /** Everything offered was dropped, taken or is still queued, and the buffer is not overfull. */
  ghost predicate Accounted(l: Log, capacity: nat) {
    && |l.queue| <= capacity
    && |l.offered| == |l.dropped| + |l.taken| + |l.queue|
    && multiset(l.offered) == multiset(l.dropped) + multiset(l.taken) + multiset(l.queue)
  }

  lemma StepAccounts(l: Log, op: Op, capacity: nat)
    requires Accounted(l, capacity)
    ensures Accounted(Step(l, op, capacity), capacity)
  {
    if op.Take? && l.queue != [] {
      assert l.queue == [l.queue[0]] + l.queue[1..];
    }
  }

  /** Nothing is lost or duplicated, and the buffer is never overfull. */
  lemma {:induction false} NothingGoesMissing(ops: seq<Op>, capacity: nat)
    ensures Accounted(Run(ops, capacity), capacity)
  {
    hide Step;
    if ops != [] {
      NothingGoesMissing(Init(ops), capacity);
      StepAccounts(Run(Init(ops), capacity), Last(ops), capacity);
    }
  }

  // ---- Against the operations alone ----

  /** The jobs offered, in order. */
  function Offered(ops: seq<Op>): seq<Job> {
    if ops == [] then [] else Offered(Init(ops)) + if Last(ops).Offer? then [Last(ops).job] else []
  }

  /** Arrivals so far minus receives so far; a receive with nothing outstanding waits. */
  function Backlog(ops: seq<Op>): nat {
    if ops == [] then 0
    else
      var b := Backlog(Init(ops));
      if Last(ops).Offer? then b + 1 else if b > 0 then b - 1 else 0
  }

  ghost predicate BacklogFits(ops: seq<Op>, capacity: nat) {
    Backlog(ops) <= capacity && (ops != [] ==> BacklogFits(Init(ops), capacity))
  }

  /** How many jobs a queue of the capacity holds, by counting alone. */
  function Waiting(ops: seq<Op>, capacity: nat): nat {
    if ops == [] then 0
    else
      var w := Waiting(Init(ops), capacity);
      if Last(ops).Offer? then (if w < capacity then w + 1 else w) else if w > 0 then w - 1 else 0
  }

  /** Every receive from a non-empty queue takes one job out of it, and every offer to a queue with room adds one. */
  lemma {:induction false} QueueHoldsWaiting(ops: seq<Op>, capacity: nat)
    ensures var l := Run(ops, capacity);
            |l.queue| == Waiting(ops, capacity) && l.offered == Offered(ops)
  {
    if ops != [] { QueueHoldsWaiting(Init(ops), capacity); }
  }

  /** Nothing has been dropped if and only if arrivals never ran ahead of receives by more than the capacity. */
  lemma {:induction false} DropsExactlyWhenBehind(ops: seq<Op>, capacity: nat)
    ensures Run(ops, capacity).dropped == [] <==> BacklogFits(ops, capacity)
    ensures BacklogFits(ops, capacity) ==> |Run(ops, capacity).queue| == Backlog(ops)
  {
    if ops != [] { DropsExactlyWhenBehind(Init(ops), capacity); }
  }

  /** While nothing is dropped, the workers have received the offered jobs first to last, all but the backlog. */
  lemma {:induction false} FirstInFirstOut(ops: seq<Op>, capacity: nat)
    requires BacklogFits(ops, capacity)
    ensures var l := Run(ops, capacity);
            var k := |Offered(ops)| - Backlog(ops);
            && 0 <= k
            && l.taken == Offered(ops)[..k]
            && l.queue == Offered(ops)[k..]
  {
    hide Step;
    if ops != [] {
      FirstInFirstOut(Init(ops), capacity);
      TakesTheHead(Run(Init(ops), capacity), Last(ops), capacity, Offered(Init(ops)), Backlog(Init(ops)));
    }
  }

  lemma TakesTheHead(l: Log, op: Op, capacity: nat, offered: seq<Job>, backlog: nat)
    requires backlog <= |offered| && l.taken == offered[..|offered| - backlog] && l.queue == offered[|offered| - backlog..]
    requires op.Offer? ==> backlog < capacity
    ensures var l' := Step(l, op, capacity);
            var offered' := offered + if op.Offer? then [op.job] else [];
            var backlog' := if op.Offer? then backlog + 1 else if backlog > 0 then backlog - 1 else 0;
            && backlog' <= |offered'|
            && l'.taken == offered'[..|offered'| - backlog'] && l'.queue == offered'[|offered'| - backlog'..]
  {
    var k := |offered| - backlog;
    if op.Offer? {
      assert (offered + [op.job])[..k] == offered[..k];
      assert (offered + [op.job])[k..] == offered[k..] + [op.job];
    } else {
      assert offered + [] == offered;
      if backlog > 0 {
        assert offered[k..][1..] == offered[k + 1..];
        assert offered[..k + 1] == offered[..k] + [offered[k]];
      }
    }
  }

  /** The channel itself. */
  class Channel {
    const capacity: nat
    var queue: seq<Job>
    ghost var log: Log

    ghost predicate Valid()
      reads this
    {
      log.queue == queue && |queue| <= capacity
    }

    constructor (size: nat)
      ensures Valid() && capacity == size && log == EMPTY
    {
      capacity, queue, log := size, [], EMPTY;
    }

    /** The subscriber's non-blocking send. */
    method TrySend(job: Job) returns (accepted: bool)
      requires Valid()
      modifies this
      ensures Valid() && log == Step(old(log), Offer(job), capacity)
      ensures accepted <==> |old(queue)| < capacity
      ensures queue == if accepted then old(queue) + [job] else old(queue)
      ensures log.dropped == if accepted then old(log).dropped else old(log).dropped + [job]
    {
      accepted := |queue| < capacity;
      log := Step(log, Offer(job), capacity);
      if accepted {
        queue := queue + [job];
      }
    }

    method Receive() returns (job: Option<Job>)
      requires Valid()
      modifies this
      ensures Valid() && log == Step(old(log), Take, capacity)
      ensures if old(queue) == [] then job == None && queue == []
              else job == Some(old(queue)[0]) && queue == old(queue)[1..] && log.taken == old(log).taken + [job.value]
    {
      log := Step(log, Take, capacity);
      if queue == [] {
        return None;
      }
      job := Some(queue[0]);
      queue := queue[1..];
    }
  }
}
