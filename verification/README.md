# SiteWatch: a verified model of the alert engine and its neighbours

SiteWatch ingests device telemetry over MQTT, evaluates alert rules against it, keeps alerts in PostgreSQL and
serves them over an HTTP API. This project models the parts whose behaviour is hard to see from the code and
proves what they guarantee, for every input, every run and every interleaving.

The alert engine is modelled in three layers, each proved against the one below.

- **One rule.** `EvaluateRules` and `BreachTracker` (`RuleEngine`), and one rule's debounce streak and activity over
  an unbounded history (`Hysteresis`): the counter is the longest constant suffix, activity is the direction of
  the latest full window, restarts, flapping, severities, lost writes.
- **Serial runs on the tables.** `process` run to its end, with failing queries and writes, API calls and restarts
  between messages (`SerialRuns`, `SerialTheorems`, `Retry`, `RuleEdits`, `SerialWitness`). Each rule's view of such a run is shown to be the run of
  its own engine, so every result of the first layer becomes a statement about rows of `alerts`.
- **Interleavings.** A pool of workers, each with a program counter inside `process`, the HTTP API and restarts, one
  atomic step per SQL statement (`Protocol`). Every write may be committed, refused, or take effect and still
  report an error. On this system: the exact bound on active alerts (`ActiveBound`, `BoundWitness`), the life of an
  alert row and the API's conflict check (`Lifecycle`), and serialisability (`DeviceView`, `Serializability`), through which
  the window law, the flapping bound, severity dominance and the return of lost decisions hold of interleavings, stated
  on the run's own evaluations and writes (`InterleavedTheorems`).

`Store` holds the same operations as they run, loops over rows and statements on tables held in fields, proved
against the functions the layers use. `JobQueue`, `LastSeen`, `RateLimiter` and `Topic` are the neighbours: the bounded
queue, the debounced `last_seen_at` write with the dashboard's online test, the per-client limiter with idle eviction,
and the topic printer, parser and filter.

## What the code does not promise

- docs/alert-engine.md:17-18 calls "at most one active alert per rule" an invariant of the engine. It is not: the
  snapshot, the evaluation and the write are separate steps, and a retry starts the list over. The bound the code gives is
  (attempts) x (messages of one device in hand at a time), it is reached for every pool size and every such overlap inside
  it (`BoundWitness.BoundIsReached`), a smaller bound is never guaranteed (`BoundWitness.ExactGuarantee`), and it is 1 when
  messages of one device do not overlap and no alert write errors (`ActiveBound.AtMostOneActiveAlert`).
- docs/alert-engine.md:56-59 says a restart only delays a decision by up to n - 1 readings. A decision can be missed for
  as long as the readings keep alternating, shown on rows of `alerts` by `SerialWitness.RestartMissesAlertForever`. While no
  full window has been read, the restarted service differs about a rule from the one that kept its streak exactly if the
  readings began by finishing that streak (`SerialTheorems.RestartCost`); from the first full window on, nothing can
  tell them apart (`SerialTheorems.RestartSelfStabilises`).
- A 404 from the acknowledge and resolve endpoints does not always mean "no such alert": the lookup's error is ignored
  (api/alerts.go:130), and every alert outside the allowed statuses is reported missing when that lookup fails
  (`Store.ExistingAlertReportedMissing`). `Store.Database.TransitionAlert` states exactly when each status is returned.
- A failed `last_seen_at` write is marked as sent all the same, so a single failed due write shows a live device offline
  (`LastSeen.OfflineMoment`, `LastSeen.FailuresCanShowOffline`). "Heard within 120 s shows online" holds if and only if the
  latest due write succeeded (`LastSeen.OnlineExactly`).
- Severity dominance holds between messages, not while a list is being written: the stricter rule is then active alone
  exactly if the list creates both alerts and only the stricter one's insert has taken effect, or resolves both and only
  the looser one's update has (`SerialTheorems.SeverityWithinMessage`); both happen (`SerialWitness`).
- Evicting idle clients from the limiter is harmless if and only if rps x maxIdle >= burst; the defaults (20, 10 minutes,
  40) satisfy it.

## Conventions

Ids are strings, except that an alert's id is its position in the append-only table. A rule's generated id is never
reused, and `owner` remembers its device, which no statement changes. Values, thresholds, rates and tokens are reals; streak
counts are unbounded integers; times are one clock, in milliseconds for ingestion and the dashboard and real seconds for
the limiter. A decision list holds creates and auto-resolves only, as in ingestion/alerts.go:72-77, so "no action" is
the absence of a decision. An unknown comparison operator keeps its text and never triggers. The rules query returns its rows in
any order. The debounce, the pool size and the queue size are positive because `intFromEnv` makes them so. In `Protocol` a
step that is not enabled does nothing, so every sequence of actions is a run.

## Model

| member | source | states |
|---|---|---|
| RuleEngine.BreachTracker.Evaluate | ingestion/alerts.go:53-101 | the loop over rules, with its in-place streak updates, computes the evaluation that the lemmas below are about, from the tracker's map and for any rule list |
| RuleEngine.RulesAreIndependent | ingestion/alerts.go:53-80 | with distinct rule ids, evaluation in sequence is every rule deciding on its own from the streaks at the start of the message |
| RuleEngine.EvaluationOfRule | ingestion/alerts.go:55-77 | what one message does to the streak and the decision of the i-th rule, whatever the other rules are |
| RuleEngine.DecisionsAreDistinct | ingestion/alerts.go:53-80 | a message takes at most one decision per rule |
| RuleEngine.EvaluationReadsOwnStreaks | ingestion/alerts.go:82-87 | an evaluation neither reads nor changes the streak of a rule that is not listed |
| RuleEngine.UndebouncedTable | ingestion/alerts.go:48-52 | with a debounce of 1 the decisions are the undebounced table, whatever the streaks hold |
| RuleEngine.StricterIsImplication | ingestion/alerts.go:103-116 | one condition implies another on every value if and only if operators and thresholds are ordered accordingly |
| RuleEngine.ConditionsSplitAtThreshold | ingestion/alerts.go:103-116 | the four operators split the values at the threshold: gt is the opposite of lte, gte of lt, gt and lt are mirror images, and only gte and lte hold at the threshold itself |
| RuleEngine.DecidesByThreshold | ingestion/alerts.go:48-80 | with a debounce of 1, a gt rule creates exactly if inactive and its reading is above the threshold and resolves exactly if active and it is not, and so for gte, lt and lte; any other operator never creates; a missing metric decides nothing |
| Hysteresis.StoredStreakIsLongestSuffix | ingestion/alerts.go:64-70 | after any calls a rule's stored streak is the direction and length of the longest constant suffix of its own evaluated readings |
| Hysteresis.LatestWindowDecides | docs/alert-engine.md:44-52 | from an empty streak, a rule is active exactly if its latest n equal readings in a row were breaching |
| Hysteresis.LatestWindowExists | docs/alert-engine.md:44-52 | readings with a full window have a latest one, so a latest window or none at all are the only cases |
| Hysteresis.NoWindowKeeps | docs/alert-engine.md:44-52 | with no n equal readings in a row, activity never changes |
| Hysteresis.WindowSynchronises | docs/alert-engine.md:54-59 | two engines in any states agree on activity and all later decisions after one full window |
| Hysteresis.RestartDisagreement | docs/alert-engine.md:54-59 | without a window, a restarted engine disagrees if and only if the readings began by finishing the lost streak |
| Hysteresis.RestartCanMissForever | docs/alert-engine.md:56-59 | for every length there are readings over which a restart misses an alert throughout |
| Hysteresis.FlappingBound | docs/rca/05-alert-storm.md:44-57 | n x (decisions - human resolves - lost writes) never exceeds the readings evaluated, across any restarts |
| Hysteresis.SeverityDominance | ingestion/alerts.go:53-80 | if every reading that triggers the stricter rule triggers the looser one, the stricter is never ahead in streak or activity |
| Hysteresis.LostDecisionIsRepeated | ingestion/alerts.go:72-77 | after any number of lost writes in a row, the next reading the same way asks for the same decision at once |
| AlertTable.SnapshotIsActivity | ingestion/alerts.go:143-161 | on consistent tables the active-rule query contains a rule of the device exactly if it has an active alert |
| AlertTable.ActiveCountAutoResolve | ingestion/alerts.go:177-181 | auto-resolving leaves a rule no active alert, even if it had several, and touches no other rule |
| AlertTable.ActiveCountIsRows | ingestion/alerts.go:143-148 | the active alerts of a rule are its rows that are open or acknowledged, counted as a set |
| AlertTable.PeopleMoveAlerts | api/alerts.go:79-101 | a known user's acknowledge moves exactly an open alert, a resolve exactly an open or acknowledged one, setting that transition's time and user and nothing else |
| AlertTable.ConsistentWrites | infra/postgres/init.sql:65-68 | however the write loop goes, every alert's rule exists and shares its device |
| AlertTable.ConsistentCall | api/alert_rules.go:80-132 | no API call breaks that, nor ever changes the device of an issued rule id |
| Retry.RetryAccount | ingestion/alerts.go:166-217 | rows inserted for a create equal the attempts that got past it (at most 3, at least 1 on success); an auto-resolve that was reached leaves no active alert |
| Retry.HitsCountAttempts | ingestion/alerts.go:202-217 | at any point of the retry loop, a statement has taken effect once per attempt that got past it |
| Retry.ActivityDuringWrites | ingestion/alerts.go:166-217 | at any point of the retry loop, a rule's activity is as before or, once a statement for it has taken effect, as decided |
| Retry.SingleCreateAddsOneRow | ingestion/alerts.go:202-217 | a lone create whose errors have no effect adds exactly one row on success and none on giving up |
| Retry.AutoResolveListIdempotent | ingestion/alerts.go:177-185 | retrying a list of auto-resolves gives the table of one clean pass |
| Retry.DuplicateByRetry | ingestion/alerts.go:207-208 | a create followed by a decision that keeps failing leaves three active alerts |
| Retry.DuplicateByLostAnswer | ingestion/alerts.go:202-217 | a lone insert that took effect but reported an error is repeated, leaving two rows |
| Retry.CommitsAreOnePass | ingestion/alerts.go:166-188 | without errors the loop is one pass over the list in order and then succeeds |
| SerialRuns.ViewFollowsRun | ingestion/main.go:183-239 | a rule's streak and activity in any serial run, with failures, API calls and restarts, are those of its own engine over the signals it receives |
| SerialRuns.WritesMoveView | ingestion/alerts.go:166-217 | writes move a rule's activity only if it has a decision, and to the decided side if nothing fails |
| SerialTheorems.ActiveIffLatestWindowBreached | docs/alert-engine.md:44-52 | on the tables: after an undisturbed run, a rule has an active alert if and only if its latest full window was breaching |
| SerialTheorems.ActivityKeptWithoutWindow | docs/alert-engine.md:44-52 | on the tables: without a full window, having an active alert or not is as at the start |
| SerialTheorems.RestartSelfStabilises | docs/alert-engine.md:54-59 | two systems that evaluate the same readings agree on a rule's alerts and on the next decision after a full window |
| SerialTheorems.RestartCost | docs/alert-engine.md:54-59 | on the tables: without a window, a restarted system and one that was not disagree about a rule if and only if the readings began by finishing the lost streak |
| SerialWitness.RestartMissesAlertForever | docs/alert-engine.md:56-59 | from empty tables, for every debounce above 1 and every length: a possible run to one reading short of an alert, and readings over which the restarted system then has no active alert and the other has one |
| SerialTheorems.AlertsDoNotFlap | docs/rca/05-alert-storm.md:44-57 | the flapping bound with decisions, resolves and losses counted on the tables, for every serial run |
| SerialTheorems.LostMeansNoEffect | ingestion/alerts.go:202-217 | a decision counts as lost if and only if no statement for it took effect in any attempt |
| SerialTheorems.NothingLostWhenCommitted | ingestion/alerts.go:202-217 | if every write commits, the flapping bound counts no losses |
| SerialTheorems.LostDecisionReturns | ingestion/main.go:219-231 | a decision whose writes all failed is in the list of the next message whose reading goes the same way |
| SerialTheorems.StricterNeverActiveAlone | infra/postgres/init.sql:102-104 | of two enabled, unedited rules with ordered conditions, the stricter never has an active alert without the looser, after every undisturbed run of whole messages |
| RuleEdits.DisabledRuleIsIgnored | ingestion/alerts.go:122-141 | a message gives a disabled rule no reading, no decision and no row, and leaves its streak and alerts alone |
| RuleEdits.OffRuleUntouched | ingestion/alerts.go:122-141 | in every interleaving a rule that stays disabled gets no row, keeps its streak unless the service restarts, and keeps its alerts unless people act |
| RuleEdits.UpdateTakesEffect | api/alert_rules.go:80-111 | after an update the next message compares with the new metric, operator and threshold, or not at all if the rule is now disabled; streak, alerts and every other rule's reading are as before |
| RuleEdits.CreateTakesEffect | api/alert_rules.go:50-78 | a new rule has no alerts and is evaluated by its columns from the next message of its device on |
| SerialTheorems.SeverityWithinMessage | ingestion/alerts.go:166-188 | at every point of the write loop, whatever fails: the stricter rule is active alone if and only if the list is half written in the wrong order |
| SerialTheorems.HalfWrittenByOrder | ingestion/alerts.go:166-188 | without errors such a point exists if and only if the stricter create, or the looser resolve, comes first in the list |
| SerialWitness.StrictAheadWhileCreating | ingestion/alerts.go:166-173 | from empty tables, after the first of two inserts, the stricter rule is active alone |
| SerialWitness.StrictAheadWhileResolving | ingestion/alerts.go:177-181 | from there, after the first of two auto-resolves, the stricter rule is active alone |
| Protocol.InvExec | ingestion/main.go:183-239 | every interleaving keeps foreign keys, alerts on their rule's device, and workers holding only their own device's rules |
| Protocol.StepFrames | ingestion/main.go:183-239 | which step may touch tables, streaks and workers; a failed query ends the message with nothing done; a restart keeps the tables only |
| Protocol.SnapshotTaken | ingestion/main.go:211-217 | the active query leaves a worker with exactly the rules that then had an open or acknowledged alert on the device |
| Protocol.EvaluationGoesBySnapshot | ingestion/main.go:211-219 | the evaluation goes by that snapshot and the streaks, whatever the tables have become since |
| ActiveBound.ActiveAlertBound | ingestion/main.go:211-231 | in every interleaving with at most c workers on one device, active alerts of a rule plus inserts still possible stay within k x c, k the attempts allowed |
| ActiveBound.AtMostThreePerWorker | ingestion/alerts.go:202-217 | 3 W with W workers, whatever fails and whatever the API does |
| ActiveBound.AtMostOnePerWorker | ingestion/main.go:116-118 | W with W workers if no write errors |
| ActiveBound.AtMostOneActiveAlert | docs/alert-engine.md:15-18 | one, if messages of a device do not overlap and no alert write errors, with API calls at any point |
| BoundWitness.BoundIsReached | ingestion/main.go:219-229 | for every pool size W, every overlap c up to W and every debounce there are runs from empty tables that reach k x c exactly, by errors without effect if k is 3 |
| BoundWitness.ExactGuarantee | docs/alert-engine.md:17-18 | a bound on active alerts holds over all runs of W workers with at most c messages of a device in hand if and only if it is at least k x c |
| BoundWitness.LateInsertLooksLikeConflict | api/alerts.go:128-136 | an alert inserted between the API's two statements can be reported as a conflict while open |
| Lifecycle.RowLivesItsHistory | api/alerts.go:79-101 | a row that is open and unmarked when a run starts is at its end exactly what its events made of it, and they are one of: none, ack, resolve, ack then resolve |
| Lifecycle.FieldsMatchPath | docs/alert-engine.md:29 | both ack fields set exactly if acknowledged, `resolved_at` set exactly if resolved, resolved exactly if one resolution happened, `resolved_by` null exactly if it was the engine's |
| Lifecycle.InsertedRowsLiveTheirHistory | api/alerts.go:79-101 | all of that for every row inserted during any run |
| Lifecycle.NewRowsArePristine | ingestion/alerts.go:169-173 | rows are only ever appended, one per step, open and unmarked |
| Lifecycle.RowsHaveReadings | ingestion/alerts.go:61-77 | in every run from idle workers a new row is written by a worker for the message it holds and took in the run, on a reading that breached a rule it loaded for that message while enabled on the device, with that reading, severity, device and time; the engine closes a row only likewise, on a reading that did not breach |
| Lifecycle.RowsOnlyAdvance | ingestion/alerts.go:177-181 | status only moves forward, resolved rows never change, identity columns never change |
| Lifecycle.ConflictCheckIsSound | api/alerts.go:109-137 | with anything in between: found means still outside the allowed statuses unless inserted since; not found means it did not exist at the update |
| DeviceView.ProcessLeavesOthers | ingestion/alerts.go:82-87 | a message of one device changes nothing another device's messages can see |
| DeviceView.ProcessAgrees | ingestion/alerts.go:122-161 | a message does the same in worlds its device cannot tell apart |
| Serializability.InterleavingIsSerial | ingestion/main.go:162-177 | a run in which same-device messages do not overlap, with any failures, ends with the streaks and the multiset of rows of its own messages handled serially in the order they were finished, each with the very answers its queries and writes got, and each device's in the order taken |
| InterleavedTheorems.AccountIsSerial | ingestion/main.go:211-239 | the readings evaluated, decisions taken and decisions lost for a rule, read off the steps of such a run, are those of that serial run |
| InterleavedTheorems.InterleavedWindow | docs/alert-engine.md:44-52 | for every such error-free run: a rule is active exactly if the latest full window of the readings its workers evaluated was breaching, and as at the start without one |
| InterleavedTheorems.InterleavedFlapping | docs/rca/05-alert-storm.md:44-57 | for every such run, whatever fails: n x (decisions - lost decisions) never exceeds the readings evaluated, counted on the run's steps |
| InterleavedTheorems.InterleavedLostReturns | ingestion/main.go:219-231 | after such a run in which every reading of a rule went one way and its decision was lost, the rule still asks for that decision |
| InterleavedTheorems.InterleavedSeverity | infra/postgres/init.sql:102-104 | severity dominance for every such error-free run, whenever no message is in hand |
| Store.Database.LoadEnabledRules | ingestion/alerts.go:122-141 | the result lists the device's enabled rules with the columns of their rows: no other rule, none missing, none twice |
| Store.Database.LoadActiveRuleIds | ingestion/alerts.go:143-161 | the result is exactly the set of rules with an open or acknowledged alert on the device |
| Store.Database.ApplyDecisions | ingestion/alerts.go:166-188 | one pass writes up to the first error and leaves the write loop where that error puts it |
| Store.Database.ApplyDecisionsWithRetry | ingestion/alerts.go:202-217 | the three-attempt loop ends as the write-loop specification does, for every answer of the database |
| Store.Database.TransitionAlert | api/alerts.go:109-144 | the exact condition for each of 200, 400, 404, 409 on the alert's status, and every column of the row after a 200 |
| Store.ExistingAlertReportedMissing | api/alerts.go:128-136 | every alert outside the allowed statuses is reported as 404 if the lookup fails, and nothing changes |
| Store.Database.CreateAlertRule | api/alert_rules.go:50-78 | 201 exactly for complete input with a known device, operator and severity; every column as asked, enabled unless the input says otherwise; otherwise 400 and no change |
| Store.Database.UpdateAlertRule | api/alert_rules.go:80-111 | 200 exactly for a known rule, operator and severity, 404 for an unknown rule; every column but the device as asked, enabled unless the input says otherwise, and no other row changes |
| Store.Database.DeleteAlertRule | api/alert_rules.go:113-132 | 204, 404, 409 exactly when alerts refer to the rule, 500; only a 204 removes the rule, and nothing else |
| Store.Ingestion.ProcessMessage | ingestion/main.go:211-239 | `process` leaves tables and streaks as the serial specification says, with the answers the database gave, and reports success exactly when every decision was written |
| JobQueue.NothingGoesMissing | ingestion/main.go:115-135 | offered = dropped + taken + queued as multisets and counts; the buffer never exceeds its capacity |
| JobQueue.OrderIsKept | ingestion/main.go:162-168 | what was taken followed by what is queued is an order-preserving selection of what was offered |
| JobQueue.QueueHoldsWaiting | ingestion/main.go:128-168 | counting the operations alone gives the length of the queue: every receive that finds a job removes one, every send that finds room adds one |
| JobQueue.FirstInFirstOut | ingestion/main.go:162-168 | while nothing is dropped, the workers have received the offered jobs first to last, all but the backlog, which is what is queued |
| JobQueue.DropsExactlyWhenBehind | docs/rca/03-mqtt-backlog.md:43-58 | nothing is dropped if and only if arrivals never exceeded receives by more than the capacity, both counted on the operations |
| JobQueue.Channel.TrySend | ingestion/main.go:128-135 | the non-blocking send appends the job if there is room and drops it otherwise, and says which |
| JobQueue.Channel.Receive | ingestion/main.go:162-168 | the receive returns the oldest job and removes it |
| LastSeen.RecordsTrackCalls | ingestion/store.go:57-66 | for calls in any order, recorded times rise by at least 60 s, are call times, and trail the latest call by less than 60 s |
| LastSeen.OnlineTest | frontend/src/utils/deviceStatus.ts:5-10 | if the latest due write succeeded: heard within 120 s shows online, and shown online means heard within 180 s |
| LastSeen.OnlineExactly | ingestion/store.go:59-76 | heard within 120 s shows online at every moment if and only if the latest due write succeeded, for calls in any order and any failures |
| LastSeen.OfflineMoment | ingestion/store.go:63-75 | if the latest due write failed, whatever came before, there is a moment within 120 s of a call at which the device shows offline |
| LastSeen.TwoMinutesIsTight | frontend/src/utils/deviceStatus.ts:1-5 | 120 s cannot be improved by a millisecond |
| LastSeen.OnlineNeverStale | frontend/src/utils/deviceStatus.ts:7-10 | shown online means heard within 180 s even if writes fail |
| LastSeen.FailuresCanShowOffline | ingestion/store.go:63-75 | one failed write, the first or one three minutes after a success, shows a device offline that was heard just now |
| LastSeen.LastSeenStore.MaybeUpdateLastSeen | ingestion/store.go:59-76 | due after 60 s; the sent time is marked whether or not the write succeeds, the row only if it does, and both maps follow the history of every device |
| RateLimiter.EvictionIsInvisible | api/ratelimit.go:39-75 | if rps x maxIdle >= burst, no sequence of requests and sweeps gets an answer the never-evicting limiter would not give |
| RateLimiter.EvictionIsVisible | api/ratelimit.go:53-75 | otherwise some sequence does |
| RateLimiter.AdmissionBound | api/ratelimit.go:39-51 | a client is admitted at most burst + rps T times in any window of length T |
| RateLimiter.PacedClientIsAdmitted | api/ratelimit.go:39-51 | a client whose earlier requests all lie at least 1 / rps back is admitted, with or without eviction |
| RateLimiter.RemembersExactly | api/ratelimit.go:53-75 | the map holds a client if and only if no sweep since its latest request came more than maxIdle after it, with that request's time |
| RateLimiter.IpRateLimiter.Allow | api/ratelimit.go:39-51 | answers as the request step says, remembers the time of the request whatever the answer, and touches no other client |
| RateLimiter.IpRateLimiter.CleanUp | api/ratelimit.go:65-72 | the sweep removes exactly the visitors idle for more than maxIdle |
| Topic.RoundTrip | simulator/src/mqtt-topic.ts:4-6 | the parser returns the printed ids exactly if neither contains a slash, and refuses the topic otherwise |
| Topic.PrintParsed | ingestion/contract.go:36-42 | whatever the parser accepts is the printed form of what it returns |
| Topic.ParserAcceptsSubscription | ingestion/main.go:128 | the parser accepts exactly the topics that `sitewatch/+/+/telemetry` matches under section 4.7.1.3 of OASIS MQTT Version 3.1.1, empty levels included |

## Left out

- MongoDB writes, JSON decoding, the MQTT client, HTTP serving, logging, metrics: each SQL statement is one atomic step that may fail, and a message starts where its topic and payload have been accepted.
- Read-only endpoints (`listSites`, `listDevices`, `listAlerts`, telemetry history): query assembly with easy properties.
- Order between `triggered_at`, `acknowledged_at` and `resolved_at`: two clocks are mixed, so the code does not guarantee one.
- Deletion of users, and demo rows inserted by scripts: no application code performs them.
- `DeviceSimulator`, React components, environment loading, correlation ids: only easy properties.
- Floating point: comparison of values and thresholds and the token bucket are over reals.
- Two workers writing one device's `last_seen_at` out of order: `LastSeen` takes the writes of a device in call order, and ignores the sub-millisecond rounding between the database and the browser.
- Eviction between a request's map update and its bucket call: `allow` is one step.
- Serializability.InterleavingIsSerial: has no API steps, because a person's action between two steps of one message has no place in a serial order of whole messages; what holds with them is ActiveBound and Lifecycle.
