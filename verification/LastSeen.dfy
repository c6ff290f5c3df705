/** The debounced `last_seen_at` write and the dashboard's online test that reads it. */
module LastSeen {
  import opened AlertTypes

  /** Milliseconds. */
  const LAST_SEEN_DEBOUNCE: int := 60 * 1000
  const ONLINE_THRESHOLD: int := 3 * 60 * 1000

  predicate Due(last: Option<Time>, at: Time) {
    last.None? || at - last.value >= LAST_SEEN_DEBOUNCE
  }

  function LastOf(records: seq<Time>): Option<Time> {
    if records == [] then None else Some(Last(records))
  }

  /** The times recorded for one device, given the times it was heard from, in any order. */
  function Records(calls: seq<Time>): seq<Time> {
    if calls == [] then []
    else
      var before := Records(Init(calls));
      if Due(LastOf(before), Last(calls)) then before + [Last(calls)] else before
  }

  /** Recorded times rise by a full minute each, are times the device was heard from, and trail by less than a minute. */
  ghost predicate Tracked(records: seq<Time>, calls: seq<Time>) {
    && (forall i, j :: 0 <= i < j < |records| ==> records[i] + 60 * 1000 <= records[j])
    && (forall i :: 0 <= i < |records| ==> records[i] in calls)
    && (records == [] <==> calls == [])
    && (forall i :: 0 <= i < |calls| ==> calls[i] < Last(records) + 60 * 1000)
  }

  lemma {:induction false} RecordsTrackCalls(calls: seq<Time>)
    ensures Tracked(Records(calls), calls)
  {
    if calls != [] {
      RecordsTrackCalls(Init(calls));
      RecordOneMore(Records(Init(calls)), Init(calls), Last(calls));
      assert Init(calls) + [Last(calls)] == calls;
    }
  }

  lemma RecordOneMore(before: seq<Time>, calls: seq<Time>, at: Time)
    requires Tracked(before, calls)
    ensures Tracked(if Due(LastOf(before), at) then before + [at] else before, calls + [at])
  {
    assert forall t :: t in calls ==> t in calls + [at];
    assert (calls + [at])[|calls|] == at;
    if Due(LastOf(before), at) {
      var r := before + [at];
      assert forall i :: 0 <= i < |before| ==> before[i] <= Last(before);
    }
  }

  /** The dashboard's test, with the clock as a parameter. */
  predicate IsDeviceOnline(lastSeen: Option<Time>, now: Time) {
    lastSeen.Some? && now - lastSeen.value < ONLINE_THRESHOLD
  }

  /** Heard from within two minutes: shown online, however out of order the calls came. */
  lemma {:induction false} HeardRecentlyShowsOnline(calls: seq<Time>, i: nat, now: Time)
    requires i < |calls| && now - calls[i] <= 2 * 60 * 1000
    ensures IsDeviceOnline(LastOf(Records(calls)), now)
  {
    RecordsTrackCalls(calls);
  }

  /** Shown online: heard from within three minutes. */
  lemma {:induction false} ShownOnlineWasHeard(calls: seq<Time>, now: Time) returns (i: nat)
    requires IsDeviceOnline(LastOf(Records(calls)), now)
    ensures i < |calls| && now - calls[i] < 3 * 60 * 1000
  {
    RecordsTrackCalls(calls);
    hide Records;
    var r := Records(calls);
    assert r[|r| - 1] in calls;
    i :| 0 <= i < |calls| && calls[i] == r[|r| - 1];
  }

  /** Two minutes is the most that can be promised: one millisecond more and the device can show offline. */
  lemma {:induction false} TwoMinutesIsTight()
    ensures var calls := [0, 59999];
            var now := 59999 + 2 * 60 * 1000 + 1;
            !IsDeviceOnline(LastOf(Records(calls)), now)
  {
    var calls: seq<Time> := [0, 59999];
    assert Init(calls) == [0] && Init([0]) == [];
    assert Records([0]) == [0];
    assert Records(calls) == [0];
  }

  // ---- When the write fails ----

  /** The device row: a failed write is recorded as sent all the same, so the row keeps its old value. */
  function Row(calls: seq<(Time, bool)>): Option<Time> {
    if calls == [] then None
    else
      var (at, ok) := Last(calls);
      if DueAfter(Init(calls), at) && ok then Some(at) else Row(Init(calls))
  }

  function Times(calls: seq<(Time, bool)>): (r: seq<Time>)
    ensures |r| == |calls|
  {
    seq(|calls|, i requires 0 <= i < |calls| => calls[i].0)
  }

  predicate DueAfter(calls: seq<(Time, bool)>, at: Time) {
    Due(LastOf(Records(Times(calls))), at)
  }

  /** The latest write that was due succeeded. */
  predicate LastDueWriteOk(calls: seq<(Time, bool)>) {
    calls != [] ==>
      if DueAfter(Init(calls), Last(calls).0) then Last(calls).1 else LastDueWriteOk(Init(calls))
  }

  lemma TimesInit(calls: seq<(Time, bool)>)
    requires calls != []
    ensures Init(Times(calls)) == Times(Init(calls)) && Last(Times(calls)) == Last(calls).0
  {
  }

  /**
    * The row holds the last recorded time if the latest due write succeeded; if it failed, the row is empty or
    * holds an earlier record, so it is at least a full debounce behind.
    */
  lemma {:induction false} RowAgainstRecord(calls: seq<(Time, bool)>)
    ensures var record, row := LastOf(Records(Times(calls))), Row(calls);
            if LastDueWriteOk(calls) then row == record
            else record.Some? && (row.Some? ==> row.value + LAST_SEEN_DEBOUNCE <= record.value)
  {
    if calls == [] {
      assert Times(calls) == [];
    } else {
      RowAgainstRecord(Init(calls));
      TimesInit(calls);
      RowNeverAhead(Init(calls));
    }
  }

  /** Whatever fails, the row is empty or at most the last record. */
  lemma {:induction false} RowNeverAhead(calls: seq<(Time, bool)>)
    ensures var record, row := LastOf(Records(Times(calls))), Row(calls);
            row.Some? ==> record.Some? && row.value <= record.value
  {
    if calls != [] {
      RowNeverAhead(Init(calls));
      TimesInit(calls);
    }
  }

  /** Both halves of the online promise, on the row the dashboard reads. */
  lemma {:induction false} OnlineTest(calls: seq<(Time, bool)>, now: Time)
    requires LastDueWriteOk(calls)
    ensures HeardWithin(calls, now, 2 * 60 * 1000 + 1) ==> IsDeviceOnline(Row(calls), now)
    ensures IsDeviceOnline(Row(calls), now) ==> HeardWithin(calls, now, 3 * 60 * 1000)
  {
    RowAgainstRecord(calls);
    hide Records, Row, LastDueWriteOk;
    if HeardWithin(calls, now, 2 * 60 * 1000 + 1) {
      var i :| 0 <= i < |calls| && now - calls[i].0 < 2 * 60 * 1000 + 1;
      HeardRecentlyShowsOnline(Times(calls), i, now);
    }
    if IsDeviceOnline(Row(calls), now) {
      var i := ShownOnlineWasHeard(Times(calls), now);
      assert now - calls[i].0 < 3 * 60 * 1000;
    }
  }

  /** The promise of the first half: at every moment within two minutes of a call, the device shows online. */
  ghost predicate AlwaysOnlineWhenHeard(calls: seq<(Time, bool)>) {
    forall now :: HeardWithin(calls, now, 2 * 60 * 1000 + 1) ==> IsDeviceOnline(Row(calls), now)
  }

  /** That promise is kept exactly for the histories whose latest due write succeeded. */
  lemma {:induction false} OnlineExactly(calls: seq<(Time, bool)>)
    ensures AlwaysOnlineWhenHeard(calls) <==> LastDueWriteOk(calls)
  {
    if LastDueWriteOk(calls) {
      forall now | HeardWithin(calls, now, 2 * 60 * 1000 + 1) ensures IsDeviceOnline(Row(calls), now) {
        OnlineTest(calls, now);
      }
    } else {
      var now := OfflineMoment(calls);
    }
  }

  /**
    * One failed due write is enough: two minutes after the call whose write failed, the device shows offline
    * although it was heard from two minutes ago.
    */
  lemma {:induction false} OfflineMoment(calls: seq<(Time, bool)>) returns (now: Time)
    requires !LastDueWriteOk(calls)
    ensures HeardWithin(calls, now, 2 * 60 * 1000 + 1) && !IsDeviceOnline(Row(calls), now)
  {
    RowAgainstRecord(calls);
    RecordsTrackCalls(Times(calls));
    hide Records, Row, LastDueWriteOk;
    var r := Records(Times(calls));
    assert r[|r| - 1] in Times(calls);
    var i :| 0 <= i < |calls| && Times(calls)[i] == r[|r| - 1];
    now := Last(r) + 2 * 60 * 1000;
    assert now - calls[i].0 < 2 * 60 * 1000 + 1;
  }

  /** The device was heard from less than `span` milliseconds ago. */
  ghost predicate HeardWithin(calls: seq<(Time, bool)>, now: Time, span: int) {
    exists i :: 0 <= i < |calls| && now - calls[i].0 < span
  }

  /** Even when due writes fail, a device shown online was heard from within three minutes. */
  lemma {:induction false} OnlineNeverStale(calls: seq<(Time, bool)>, now: Time)
    requires IsDeviceOnline(Row(calls), now)
    ensures HeardWithin(calls, now, 3 * 60 * 1000)
  {
    if Row(calls) == Some(Last(calls).0) {
      assert calls[|calls| - 1] == Last(calls);
    } else {
      OnlineNeverStale(Init(calls), now);
      var i :| 0 <= i < |Init(calls)| && now - Init(calls)[i].0 < 3 * 60 * 1000;
      assert calls[i] == Init(calls)[i];
    }
  }

  /** The shortest cases: the only write fails, or one fails after another had succeeded three minutes before. */
  lemma {:induction false} FailuresCanShowOffline()
    ensures var first := [(0, false)]; HeardWithin(first, 0, 1) && !IsDeviceOnline(Row(first), 0)
    ensures var later := [(0, true), (180000, false)];
            HeardWithin(later, 180000, 1) && !IsDeviceOnline(Row(later), 180000)
  {
    var c0: seq<(Time, bool)> := [];
    var first: seq<(Time, bool)> := [(0, false)];
    var c1: seq<(Time, bool)> := [(0, true)];
    var later := c1 + [(180000, false)];
    assert Times(c0) == [] && Init(first) == c0 && Init(c1) == c0 && Init(later) == c1;
    assert first[0].0 == 0 && later[1].0 == 180000;
    assert Row(first) == None && Row(c1) == Some(0);
    assert Row(later) == Some(0);
    assert later == [(0, true), (180000, false)];
  }

  // ---- The store ----

  /** What a device's history says is what the two maps hold. */
  ghost predicate MapsTell(heard: map<Id, seq<(Time, bool)>>, sent: map<Id, Time>, rows: map<Id, Time>, device: Id) {
    && LastOf(Records(Times(Heard(heard, device)))) == Lookup(sent, device)
    && Row(Heard(heard, device)) == Lookup(rows, device)
  }

  lemma MapsStillTell(
    heard: map<Id, seq<(Time, bool)>>, sent: map<Id, Time>, rows: map<Id, Time>,
    device: Id, at: Time, ok: bool, other: Id)
    requires MapsTell(heard, sent, rows, device) && MapsTell(heard, sent, rows, other)
    ensures var due := Due(Lookup(sent, device), at);
            MapsTell(heard[device := Heard(heard, device) + [(at, ok)]],
                     if due then sent[device := at] else sent,
                     if due && ok then rows[device := at] else rows,
                     other)
  {
    OneMoreCall(Heard(heard, device), at, ok);
    hide Records, Row, Times, LastOf;
  }

  class LastSeenStore {
    var lastSeenSent: map<Id, Time>
    var lastSeenAt: map<Id, Time>
    ghost var heard: map<Id, seq<(Time, bool)>>

    ghost predicate Valid()
      reads this
    {
      forall device :: MapsTell(heard, lastSeenSent, lastSeenAt, device)
    }

    constructor ()
      ensures Valid() && heard == map[]
    {
      lastSeenSent, lastSeenAt, heard := map[], map[], map[];
    }

    /** Marks the time as sent before it knows whether the write succeeds. */
    method MaybeUpdateLastSeen(device: Id, at: Time, writeOk: bool) returns (ok: bool)
      requires Valid()
      modifies this
      ensures Valid()
      ensures heard == old(heard)[device := Heard(old(heard), device) + [(at, writeOk)]]
      ensures var due := device !in old(lastSeenSent) || at - old(lastSeenSent)[device] >= 60 * 1000;
              && (ok <==> writeOk || !due)
              && lastSeenSent == (if due then old(lastSeenSent)[device := at] else old(lastSeenSent))
              && lastSeenAt == (if due && writeOk then old(lastSeenAt)[device := at] else old(lastSeenAt))
    {
      hide MapsTell;
      var due := device !in lastSeenSent || at - lastSeenSent[device] >= LAST_SEEN_DEBOUNCE;
      heard := heard[device := Heard(heard, device) + [(at, writeOk)]];
      if due {
        lastSeenSent := lastSeenSent[device := at];
        if writeOk {
          lastSeenAt := lastSeenAt[device := at];
        }
      }
      ok := !due || writeOk;
      forall other ensures MapsTell(heard, lastSeenSent, lastSeenAt, other) {
        MapsStillTell(old(heard), old(lastSeenSent), old(lastSeenAt), device, at, writeOk, other);
      }
    }
  }

  /** What one more call does to the record and to the row. */
  lemma OneMoreCall(calls: seq<(Time, bool)>, at: Time, ok: bool)
    ensures var after := calls + [(at, ok)];
            var due := Due(LastOf(Records(Times(calls))), at);
            && LastOf(Records(Times(after))) == (if due then Some(at) else LastOf(Records(Times(calls))))
            && Row(after) == (if due && ok then Some(at) else Row(calls))
  {
    var after := calls + [(at, ok)];
    assert Init(after) == calls;
    TimesInit(after);
  }

  function Lookup(m: map<Id, Time>, device: Id): Option<Time> {
    if device in m then Some(m[device]) else None
  }

  ghost function Heard(m: map<Id, seq<(Time, bool)>>, device: Id): seq<(Time, bool)> {
    if device in m then m[device] else []
  }
}
