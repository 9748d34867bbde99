# Verification model of the Avtomatika worker

Dafny models of the worker's scheduling and bookkeeping (`src/avtomatika_worker/worker.py`) and of
its S3 payload handling (`src/avtomatika_worker/s3.py`), with proofs of what they keep over whole
runs. `dafny verify dfyconfig.toml` checks everything.

Each concern has a pure part, with the statements about all inputs, runs and interleavings, and a
class or method in the shape of the code, with fields updated in place and loops, which is proved to
take exactly the steps of the pure part. Where the code awaits, a step ends: steps of different
asyncio tasks interleave freely. Replies of orchestrators, the object store, the clock, handlers and
capacity checks are parameters or arbitrary choices. Times and delays are reals.

- `WeightedRoundRobin.dfy`: choice of the next orchestrator in ROUND_ROBIN mode
- `SkillState.dfy`: supported, available and hot skills
- `PollingModes.dfy`: which orchestrators one round of the polling loop asks
- `TaskAdmission.dfy`, `WorkerLoad.dfy`: polling, task life cycle, load counters, hand-over of results
- `HeartbeatDebounce.dfy`: heartbeat cooldown and the delayed heartbeat
- `Telemetry.dfy`, `CatalogSync.dfy`: what heartbeats carry only when it changed
- `Backoff.dfy`: backoff, polling gate, registration retries
- `ResultUploader.dfy`: the retrying result queue
- `KeyPath.dfy`, `S3Payload.dfy`, `BlobCache.dfy`: payload rewriting and the ETag cache
- `Prelude.dfy`: options, transports, minimum, maximum, powers of two

## Where the code does not do what is written about it

The model follows the code in each case.

- "Events are not lost" (README.md:38) holds of a run if and only if it contains no losing step
  (`EveryChangeIsCovered`, for every interleaving). A step loses a change if nothing else on its way
  covers it and the step is: a send that fails, a delayed heartbeat that wakes up within a new
  cooldown, or the last queued send coming within the cooldown while a delayed heartbeat is still
  sending something older. Each kind does occur (`FailedSendLosesAChange`, `OverlapLosesAChange`,
  `LateWakeLosesAChange`, `HeldFlagLosesAChange`); none does when sends succeed without overlapping
  and a due delayed heartbeat goes before other sends, however long sends take
  (`OrderlyRunsLoseNothing`).
- A usage is recorded as sent before the send, in one place for all orchestrators
  (worker.py:1525-1526). A lost heartbeat, or one to another orchestrator, leaves a receiver with an
  older usage: its view is the worker's if and only if the last heartbeat with a usage arrived there
  (`BelievedIsLastSent`), and a lost usage is not repeated while readings stay near it
  (`LostReportIsNotRepeated`, `LostReportLeavesAStaleView`).
- A task rejected before its `try`, cancelled before its first step or cut short inside its `finally`
  keeps its slot: the load counter is the number of tasks in flight if and only if there never was one
  (`LoadIsRecountIff`). After as many of these as may run at once the worker never polls again
  (`LeakedSlotsStayLeaked`). The per-type counter drifts, below zero if need be, when a skill is
  registered between the admission and the start of one of its tasks (`LateRegistrationDrifts`).
- A registration marks the catalogue as synchronised before it is sent (worker.py:1263), and an
  answer can be lost. A worker that is right about the orchestrator stays so if and only if each step
  is benign (`CoherentIff`, `CoherentThroughoutIff`), which the code does not see to
  (`LostRegistration`, `LostAnswer`, `Forgotten`, `LostAnswerThenRevert`); the next acknowledgement
  repairs it (`AckRepairs`).
- The ETag cache is invisible to a task in a run if and only if every step is proper
  (`InvisibleThroughoutIff`, `InvisibleIff`): equal tags mean equal content, no file or directory
  stands in the way of the path, and a handler or an untagged download writes through a link only
  what is there already. The code checks none of this.
- A download that breaks off spoils the cache if and only if its part is not the whole
  (`PartSpoilsIff`). Then every later download of that tag is served the part
  (`BrokenDownloadIsServed`), until and only until something writes the whole through a link
  (`PartStaysIff`).
- A folder whose objects can each be downloaded by themselves is downloaded if and only if no relative
  path is nested in another (`FolderArrives`); an object store may hold both (`NestedListingRaises`).
- A path can be mistaken for one of plain keys if and only if the parser reads it as one of the same
  rendering (`AmbiguousIff`): keys with a dot, with an index in brackets, and an empty key at the top
  (`DottedKey`, `BracketedKey`, `EmptyKey`). Files at two places that read the same share one entry
  (`SamePathsCollide`, `AmbiguousKeysCollide`, `DottedKeysCollide`). Whatever the keys, table and tree
  agree if and only if no two such uploads go to different URIs (`MetadataAgreesIff`).
- `RESULT_MAX_RETRIES` of 0 drops every result without an attempt (`AttemptsOf`).
- The deadband of CPU and device load is in percentage points, not 5% of the value (README.md:20):
  the readings agree if and only if the last value was 100 (`DeadbandIsInPoints`). A device reported
  twice hides the removal of another; distinct ids are exactly what the test needs
  (`DuplicateIdsHideARemoval`, `LookupSufficesIff`).
- The first wait between registration attempts, after a failure other than a 429, is the smaller of
  twice the initial delay and the maximum, not the initial delay (`RegistrationRun`).
- FAILOVER is described as polling the next orchestrator only if the previous one was empty
  (docs/DEVELOPMENT.md:139); the loop goes on after a task, which makes no difference if and only if
  none but the last one polled had a task (`FailoverGoesOn`).

## Model

| member | source | states |
|---|---|---|
| WeightedRoundRobin.ExactFairness | src/avtomatika_worker/worker.py:641-656 | any W consecutive calls, wherever they start, pick client i exactly weight_i times, W being the total weight |
| WeightedRoundRobin.BoundedUnfairness | src/avtomatika_worker/worker.py:641-656 | after any number m of calls the current weights cancel out, each lies strictly between -W and (n-1)W, and so the picks of a client differ from m*weight/W by less than 1 upwards and n-1 downwards |
| WeightedRoundRobin.FullRound | src/avtomatika_worker/worker.py:400-404 | after W calls all current weights are back at their initial 0 |
| WeightedRoundRobin.Periodic | src/avtomatika_worker/worker.py:641-656 | state and pick repeat with period W |
| WeightedRoundRobin.NoStarvation | src/avtomatika_worker/worker.py:641-656 | a client of positive weight is picked within every W consecutive calls |
| WeightedRoundRobin.ZeroWeightPickedIff | src/avtomatika_worker/worker.py:641-656 | a client of weight 0 is ever picked if and only if all weights are 0 and it is first |
| WeightedRoundRobin.PickIsFirstMaximum | src/avtomatika_worker/worker.py:644-655 | each call picks the first client of largest raised weight, never one below 0, and charges W to it alone |
| WeightedRoundRobin.Accounting | src/avtomatika_worker/worker.py:646-654 | a current weight is m*weight minus W times the picks so far |
| WeightedRoundRobin.SomeoneIsPicked | src/avtomatika_worker/worker.py:644-656 | starting the maximum at -1 never leaves a non-empty list without a pick |
| WeightedRoundRobin.ClientRing.GetNextClient | src/avtomatika_worker/worker.py:641-656 | call number k on the dictionaries returns the client of pick k and None only on an empty list |
| WeightedRoundRobin.ClientRing.constructor | src/avtomatika_worker/worker.py:400-405 | all current weights start at 0 and the total is the sum of the weights |
| SkillState.TiersAreNested | src/avtomatika_worker/worker.py:586-639 | hot is a subsequence of available and available of supported; which skills are in each tier, by limit, capacity check, dependencies and hot items, and the status, both directions |
| SkillState.GetCurrentState | src/avtomatika_worker/worker.py:593-639 | the loop computes the specified report |
| PollingModes.PollRound | src/avtomatika_worker/worker.py:745-776 | a round asks the orchestrators in order until the worker is busy, and in WATERFALL mode until one has a task; ROUND_ROBIN asks the chosen one |
| PollingModes.FailoverGoesOn | src/avtomatika_worker/worker.py:764-772 | FAILOVER never asks fewer than documented, and as many if and only if no task came from any but the last |
| TaskAdmission.NeverOverloaded | src/avtomatika_worker/worker.py:597-603 | for every reply and interleaving, tasks in flight plus leaked slots equal the load, which never exceeds MAX_CONCURRENT_TASKS |
| TaskAdmission.LeakedSlotsStayLeaked | src/avtomatika_worker/worker.py:855-869 | a slot lost by a rejected task is never regained; once all are lost no poll can begin in any continuation |
| TaskAdmission.TypeCountersRecount | src/avtomatika_worker/worker.py:693-696 | with quiet registrations each per-type counter is the tasks of that type in flight plus the lost ones |
| TaskAdmission.RegistrationMatchesIff | src/avtomatika_worker/worker.py:873-874 | a registration keeps counted and released types equal if and only if it does not retype the skill of a task that has not started |
| TaskAdmission.LateRegistrationDrifts | src/avtomatika_worker/worker.py:1222-1223 | registering a skill after one of its tasks was admitted lowers the counter of its type by one for good |
| TaskAdmission.CountersRecount | src/avtomatika_worker/worker.py:1220-1223 | without dropped tasks, counters, table of active tasks and reported state equal a recount of the tasks in flight, and return to zero with them |
| TaskAdmission.LoadIsRecountIff | src/avtomatika_worker/worker.py:597-603 | the load counter is the tasks in flight plus the dropped tasks of the run, and so the tasks in flight alone if and only if none was dropped |
| TaskAdmission.TypeLimitsHold | src/avtomatika_worker/worker.py:609-617 | if replies stay within the offered skills and no registration retypes an offered skill or that of a task not yet started, no type has more tasks in flight than its limit, although the offer precedes the await |
| TaskAdmission.ActiveRun | src/avtomatika_worker/worker.py:698-699 | over every run with unused ids the table of active tasks holds exactly the tasks that have not given back their slot, each under its own id |
| TaskAdmission.WorkIsConserved | src/avtomatika_worker/worker.py:1204-1224 | every admitted task is in flight, lost, or has handed over exactly one result, its own and to its own client, that is queued, being sent or finished |
| TaskAdmission.EveryExitHasAResult | src/avtomatika_worker/worker.py:897-1203 | the result, None at first, is set on every way through the try, with the status and error code of that way |
| TaskAdmission.VerdictIsOfTheExit | src/avtomatika_worker/worker.py:1209-1211 | from the end of the try on, whatever else happens, a task that gives back its slot has handed over the result of the way it took, under its own id and to its own client |
| TaskAdmission.ResultGoesBackToTheSender | src/avtomatika_worker/worker.py:686-700 | a task that came with the reply to a poll hands over its result under the id of the reply, to the client that was polled |
| TaskAdmission.TypeOfIs | src/avtomatika_worker/worker.py:693-695 | the type of a skill is that of its entry, and there is none exactly for an unknown name |
| TaskAdmission.HandOverOrder | src/avtomatika_worker/worker.py:1210-1211 | results reach the uploader in the order in which tasks closed, one for each task that closes |
| TaskAdmission.ConservedRun | src/avtomatika_worker/worker.py:1627-1667 | no step reorders, duplicates or removes a result that was handed over |
| TaskAdmission.PutReplacesOrAppends | src/avtomatika_worker/worker.py:566-570 | a known name keeps its place among the skills and gets the new entry, an unknown one is appended |
| WorkerLoad.Worker.BeginPoll | src/avtomatika_worker/worker.py:664-684 | a poll is made exactly when there is room and some skill can be started, and offers the names of all skills that can |
| WorkerLoad.Worker.EndPoll | src/avtomatika_worker/worker.py:686-700 | the load, the counter of the type, which is always present, the table entry and the new task, of the polled client, after a reply |
| WorkerLoad.Worker.EnterTask | src/avtomatika_worker/worker.py:873-898 | the second lookup of the type and the validation of the input |
| WorkerLoad.Worker.ConcludeTask | src/avtomatika_worker/worker.py:980-1203 | every path through the try ends with the result set, and with the status and code of that path |
| WorkerLoad.Worker.CloseTask | src/avtomatika_worker/worker.py:1209-1223 | the finally clause hands over the result of the task if one is set, to its client, and gives back slot, type count and table entry |
| WorkerLoad.Worker.RegisterSkillHandler | src/avtomatika_worker/worker.py:563-570 | registration takes its step and creates a missing counter |
| WorkerLoad.Worker.FetchResult | src/avtomatika_worker/worker.py:1628-1632 | the uploader takes the oldest result |
| WorkerLoad.Worker.ResultDone | src/avtomatika_worker/worker.py:1666-1667 | and is done with it |
| HeartbeatDebounce.ThrottleFromTheStart | src/avtomatika_worker/worker.py:1577-1591 | under every interleaving, overlapping and failing sends included, the flag is up exactly while one delayed heartbeat is alive, and no send begins within the cooldown of an earlier completion |
| HeartbeatDebounce.GoesAheadIff | src/avtomatika_worker/worker.py:1578-1591 | on every run a send goes ahead if and only if no completed send lies within the cooldown before it; failed and unfinished ones start no cooldown |
| HeartbeatDebounce.LogIs | src/avtomatika_worker/worker.py:1590-1591 | completions are recorded at the time they happen, and nothing else changes the time kept |
| HeartbeatDebounce.CarriedIff | src/avtomatika_worker/worker.py:1577-1591 | a step takes an undelivered change off its way if and only if it is a losing step, and puts a lost one back if and only if it is a new change or a periodic send that goes ahead or arms a delayed heartbeat |
| HeartbeatDebounce.EveryChangeIsCovered | src/avtomatika_worker/worker.py:1577-1591 | under every interleaving each change is at every moment delivered or on its way if and only if the run has no losing step; then everything is delivered whenever nothing is on its way |
| HeartbeatDebounce.OrderlyRunsLoseNothing | src/avtomatika_worker/worker.py:1577-1591 | with successful, non-overlapping sends of any duration and due delayed heartbeats going first no step loses a change, a pending delay is due exactly at last plus cooldown, and if sends are prompt no change waits longer than the cooldown |
| HeartbeatDebounce.PendingSendCovers | src/avtomatika_worker/worker.py:1577-1591 | in orderly runs a send goes ahead and covers every change so far once it lands, or comes within the cooldown and leaves a delayed heartbeat due at its end, and the delayed heartbeat always goes ahead |
| HeartbeatDebounce.NothingLostRun | src/avtomatika_worker/worker.py:1329-1335 | from any state whose undelivered changes are on their way, they stay on their way along a run if and only if it has no losing step |
| HeartbeatDebounce.FailedSendLosesAChange | src/avtomatika_worker/worker.py:1590-1591 | a failed send can lose the change it carried |
| HeartbeatDebounce.OverlapLosesAChange | src/avtomatika_worker/worker.py:1589-1591 | overlapping sends can lose a change |
| HeartbeatDebounce.LateWakeLosesAChange | src/avtomatika_worker/worker.py:1582-1587 | a delayed heartbeat that runs late can lose a change |
| HeartbeatDebounce.HeldFlagLosesAChange | src/avtomatika_worker/worker.py:1582-1587 | a change during the send of a delayed heartbeat can arm nothing and be lost |
| HeartbeatDebounce.HeartbeatSender.ScheduleHeartbeatDebounce | src/avtomatika_worker/worker.py:658-662 | one send task is created for every client |
| HeartbeatDebounce.HeartbeatSender.BeginSend | src/avtomatika_worker/worker.py:1578-1587 | when a send goes ahead, when it arms a delayed heartbeat and for how long |
| HeartbeatDebounce.HeartbeatSender.RunSend | src/avtomatika_worker/worker.py:1577-1590 | one step of the client's machine, with the delay of the heartbeat it arms; other clients are untouched |
| HeartbeatDebounce.HeartbeatSender.FinishSend | src/avtomatika_worker/worker.py:1590-1591 | a success records the current time, a failure leaves the times alone |
| HeartbeatDebounce.HeartbeatSender.WakeDelayed | src/avtomatika_worker/worker.py:1329-1335 | a delayed heartbeat goes ahead exactly after the cooldown, and otherwise gives up and lowers the flag |
| HeartbeatDebounce.HeartbeatSender.FinishDelayed | src/avtomatika_worker/worker.py:1333-1335 | the flag falls on every exit of a delayed heartbeat, and only a success records the time |
| Telemetry.ViewStaysClose | src/avtomatika_worker/worker.py:1512-1526 | over any heartbeats, as long as the last one with a usage arrived, the receiver goes by a measured usage within the deadband of the current one, with the same devices, and younger than the force interval |
| Telemetry.ChangedIffNotNear | src/avtomatika_worker/worker.py:1465-1499 | the code's test fires if and only if the usage left the deadband or the set of devices changed |
| Telemetry.ReportedIff | src/avtomatika_worker/worker.py:1465-1499 | on the bare readings: a usage is reported if and only if a load left the deadband, memory left it in percent, or a device came or went |
| Telemetry.DeviceMemoryIsReported | src/avtomatika_worker/worker.py:1491-1497 | the memory a device has in use, under that metric and no other, is reported whenever it leaves the deadband in percent |
| Telemetry.SameDevices | src/avtomatika_worker/worker.py:1480-1488 | equal length and a one-way lookup notice removed devices |
| Telemetry.LookupSufficesIff | src/avtomatika_worker/worker.py:1480-1488 | equal length and a one-way lookup imply equal devices for every last usage if and only if the ids of the reading are distinct |
| Telemetry.DeadbandIsInPoints | src/avtomatika_worker/worker.py:1469-1470 | the deadband of CPU and load in points is that in percent if and only if the last value was 100, and is less sensitive below |
| Telemetry.DuplicateIdsHideARemoval | src/avtomatika_worker/worker.py:1482-1488 | whenever an id occurs twice in a reading, the removal of a device in the second place goes unnoticed |
| Telemetry.BelievedIsLastSent | src/avtomatika_worker/worker.py:1518-1526 | a receiver goes by what the worker compares with if and only if the last heartbeat with a usage arrived there |
| Telemetry.LostReportIsNotRepeated | src/avtomatika_worker/worker.py:1525-1526 | a lost usage is not sent again through any number of later readings that stay near it within the force interval; the receiver goes by what it had before, whatever else arrives |
| Telemetry.LostReportLeavesAStaleView | src/avtomatika_worker/worker.py:1525-1526 | meanwhile a view that was up to date is not close to the usage that was lost |
| Telemetry.PercentAgrees | src/avtomatika_worker/worker.py:1472-1478 | the division test is the relative deadband, with 0 meaning none |
| Telemetry.TelemetryThrottle.IsChangedSignificantly | src/avtomatika_worker/worker.py:1465-1499 | the loop computes the test |
| Telemetry.TelemetryThrottle.Report | src/avtomatika_worker/worker.py:1512-1526 | each heartbeat adds the specified usage field |
| CatalogSync.SelfStabilises | src/avtomatika_worker/worker.py:1501-1510 | from any beliefs, after one acknowledgement and as long as steps are benign from then on, every delivered heartbeat leaves the orchestrator with the catalogue it was built from |
| CatalogSync.TwoHeartbeatsSuffice | src/avtomatika_worker/worker.py:1589-1600 | two acknowledged heartbeats always synchronise; one does if and only if the worker does not wrongly believe to be synchronised |
| CatalogSync.CoherentRun | src/avtomatika_worker/worker.py:1594-1600 | the worker only believes to be synchronised with what the orchestrator holds, over all runs whose steps are benign once it is so |
| CatalogSync.CoherentIff | src/avtomatika_worker/worker.py:1594-1600 | a step keeps the belief right if and only if it is benign |
| CatalogSync.CoherentThroughoutIff | src/avtomatika_worker/worker.py:1594-1600 | a run from a right belief has a right belief throughout if and only if all its steps are benign |
| CatalogSync.AckRepairs | src/avtomatika_worker/worker.py:1596-1600 | after an acknowledgement the next heartbeat that arrives brings the current catalogue across, whatever was believed |
| CatalogSync.LostAnswer | src/avtomatika_worker/worker.py:1589-1595 | a lost answer leaves a wrong belief if and only if its heartbeat carried a catalogue other than the one believed to be synchronised |
| CatalogSync.Forgotten | src/avtomatika_worker/worker.py:1501-1510 | an orchestrator that loses the catalogue between heartbeats deceives the worker if and only if that believes to be synchronised |
| CatalogSync.ChangeInFlightIsNotMarked | src/avtomatika_worker/worker.py:1594-1595 | on any run, a change made during a send is not marked as synchronised by its acknowledgement and is sent next |
| CatalogSync.LostRegistration | src/avtomatika_worker/worker.py:1262-1263 | a lost registration leaves the worker right about the orchestrator if and only if that already held the catalogue |
| CatalogSync.LostAnswerThenRevert | src/avtomatika_worker/worker.py:1538-1541 | a lost answer and a change back deceive one heartbeat; the acknowledgement of that one repairs it |
| CatalogSync.CatalogTracker.CreateHeartbeatPayload | src/avtomatika_worker/worker.py:1501-1510 | the catalogue is included when its hash is not the one last synchronised |
| CatalogSync.CatalogTracker.OnResponse | src/avtomatika_worker/worker.py:1594-1600 | what a response does to the hash last synchronised |
| CatalogSync.CatalogTracker.OnSessionLost | src/avtomatika_worker/worker.py:1376-1377 | after a lost session the next heartbeat carries the catalogue |
| CatalogSync.CatalogTracker.CreateRegistrationPayload | src/avtomatika_worker/worker.py:1262-1263 | the worker is left as after a registration attempt whether or not it arrives, the orchestrator takes what the payload carries, and heartbeats carry only the hash until the catalogue changes |
| Backoff.NetworkRun | src/avtomatika_worker/worker.py:701-718 | k+1 network failures from a clear state give min(initial*2^k, max) |
| Backoff.RateLimitRun | src/avtomatika_worker/worker.py:1563-1575 | k+1 answers of 429 without Retry-After give min(max(initial, floor)*2^k, max), or the floor if that exceeds max |
| Backoff.RegistrationRun | src/avtomatika_worker/worker.py:1296-1320 | the k-th wait between registrations is min(initial*2^k, max) |
| Backoff.BackInRange | src/avtomatika_worker/worker.py:1563-1575 | after any history a computed delay is within [min(initial, max), max(max, floor)] and at least the floor for a 429 |
| Backoff.ComputedDelay | src/avtomatika_worker/worker.py:1563-1575 | after any history a computed delay is twice the last, at least the initial one, capped, and after a 429 at least the floor |
| Backoff.RetryAfterIsObeyed | src/avtomatika_worker/worker.py:706-708 | after any history a positive Retry-After is the delay |
| Backoff.RetryStormBound | src/avtomatika_worker/worker.py:666-718 | N calls to a client that answers 429 without Retry-After take at least N-1 floors, whatever else is polled |
| Backoff.Isolation | src/avtomatika_worker/worker.py:686-718 | backoff and gate of a client depend on its own calls alone |
| Backoff.GateFollowsRefusals | src/avtomatika_worker/worker.py:686-718 | the backoff of a client is that of its refusals since its last answer, and its gate opens that long after the last of them |
| Backoff.MayPollIff | src/avtomatika_worker/worker.py:666-667 | a client may be polled if and only if it was not refused since its last answer or the backoff has passed since the end of the last refusal |
| Backoff.PollGate.MayPoll | src/avtomatika_worker/worker.py:666-667 | the gate test, also on the calls made so far |
| Backoff.PollGate.Settled | src/avtomatika_worker/worker.py:686-718 | the dictionaries after a call are those of the history of calls |
| Backoff.RegisterWithRetry | src/avtomatika_worker/worker.py:1296-1327 | registration is retried until it succeeds, with the backoff of the failures so far before each retry |
| ResultUploader.Deliver | src/avtomatika_worker/worker.py:1634-1663 | failures followed by at most one reply, ended early only by a reply, with the pause that each failure calls for |
| ResultUploader.BlockIsDetermined | src/avtomatika_worker/worker.py:1637-1663 | that description leaves no choice |
| ResultUploader.PausesAre | src/avtomatika_worker/worker.py:1643-1662 | the k-th failure is followed by initial*2^k, or by the Retry-After of a 429 if that is longer |
| ResultUploader.GivingUpOnErrors | src/avtomatika_worker/worker.py:1652-1663 | r ordinary failures sleep initial*(2^(r-1)-1) in total |
| ResultUploader.GivingUpOnRateLimits | src/avtomatika_worker/worker.py:1643-1651 | r answers of 429 sleep at least initial*(2^r-1) |
| ResultUploader.SentInOrder | src/avtomatika_worker/worker.py:1627-1667 | send calls follow the order of the queue without interleaving, and nothing is sent again after a reply |
| ResultUploader.AttemptsOf | src/avtomatika_worker/worker.py:1635-1642 | each result has its own consecutive calls, at most r, and none only if r is 0 |
| ResultUploader.QueueWorker.ServeOne | src/avtomatika_worker/worker.py:1627-1667 | one get, one block of attempts that all carry the oldest result, and one task_done, in the order of the queue, whatever arrives meanwhile |
| KeyPath.RoundTrip | src/avtomatika_worker/s3.py:263-265 | the key path of plain keys and indices can be parsed back |
| KeyPath.Injective | src/avtomatika_worker/s3.py:263-265 | so no two places share one |
| KeyPath.DecimalIs | src/avtomatika_worker/s3.py:265 | an index is written in the usual digits |
| KeyPath.AmbiguousIff | src/avtomatika_worker/s3.py:263-265 | another path of plain keys has the same text if and only if the parser finds one |
| KeyPath.DottedKey | src/avtomatika_worker/s3.py:263 | a key of two plain keys joined by a dot reads as the path of both |
| KeyPath.BracketedKey | src/avtomatika_worker/s3.py:265 | a plain key followed by an index in brackets reads as the key and the index |
| KeyPath.EmptyKey | src/avtomatika_worker/s3.py:263 | an empty key at the top leaves no trace in the text |
| S3Payload.TableOfUploads | src/avtomatika_worker/s3.py:240-269 | the metadata map has one entry per uploaded leaf, under its own path and with what its upload gave, and no other |
| S3Payload.MetadataAgrees | src/avtomatika_worker/s3.py:242-269 | the uri listed under a path is the value now found there; every other place, key, length and order is unchanged |
| S3Payload.LeafIsReplacedIff | src/avtomatika_worker/s3.py:243-254 | a leaf is listed and replaced if and only if it is a string that starts with the files directory and names a present file; any other stands as it was |
| S3Payload.EntryIsOfTaskFile | src/avtomatika_worker/s3.py:248-254 | every entry of the table is that of such a leaf, with the uri, size and tag of its upload |
| S3Payload.MetadataAgreesIff | src/avtomatika_worker/s3.py:242-269 | whatever the keys, every upload finds its own uri under its path if and only if no two uploads with the same path text go to different uris |
| S3Payload.SamePathsCollide | src/avtomatika_worker/s3.py:256-263 | for any two paths with the same text, files at both places share one entry, which is that of the later one |
| S3Payload.AmbiguousKeysCollide | src/avtomatika_worker/s3.py:256-263 | every key that the parser reads as another path of plain keys collides with that path |
| S3Payload.DottedKeysCollide | src/avtomatika_worker/s3.py:256-263 | keys with a dot, keys with an index in brackets and an empty key at the top, each with the nested path it reads as, make two uploads of different files share one entry |
| S3Payload.ParamsKeepShape | src/avtomatika_worker/s3.py:195-217 | rewriting succeeds if and only if every URI can be parsed and downloaded, and changes nothing but the s3 leaves |
| S3Payload.ParamLeaves | src/avtomatika_worker/s3.py:195-217 | rewriting succeeds if and only if every string in the tree that starts with s3:// can be parsed and downloaded; each of these becomes the local path of its target, and any other leaf stands |
| S3Payload.ParamsIdempotent | src/avtomatika_worker/s3.py:189-219 | no s3 leaf is left, and a second pass is the identity |
| S3Payload.NamesAreKept | src/avtomatika_worker/s3.py:204-210 | local paths and URIs keep the file's name, whatever the prefix, and different names stay apart |
| S3Payload.UriName | src/avtomatika_worker/s3.py:248-250 | the URI of an upload is an s3 URI that ends in the file's name, leading slashes of the prefix stripped |
| S3Payload.UriIs | src/avtomatika_worker/s3.py:247-250 | an upload goes to the bucket, under the prefix without leading slashes, with one slash before the file's name |
| S3Payload.LocalPathIs | src/avtomatika_worker/s3.py:202-210 | a download goes to the directory of the task, under the last segment of the key, for a folder with trailing slashes too |
| S3Payload.S3Manager.WalkParams | src/avtomatika_worker/s3.py:195-217 | the walk over the tree, each URI downloaded once in order, with the count of active operations one higher during each and restored on every exit |
| S3Payload.S3Manager.ProcessParams | src/avtomatika_worker/s3.py:189-219 | without an endpoint nothing is touched |
| S3Payload.S3Manager.WalkResult | src/avtomatika_worker/s3.py:242-266 | the walk over a result fills the table as specified; the count is one higher during each upload and restored on every exit |
| S3Payload.S3Manager.ProcessResult | src/avtomatika_worker/s3.py:234-269 | rewritten tree and table of a result |
| BlobCache.CacheIsInvisible | src/avtomatika_worker/s3.py:160-187 | over any run of proper downloads, cleanups and handler writes, cache files keep the content of their tags, nothing raises, and tasks read what direct downloads would have given |
| BlobCache.InvisibleIff | src/avtomatika_worker/s3.py:165-187 | a step goes through, keeps the cache right and looks like a direct download if and only if it is proper: equal tag equal content, nothing in the way, and through a link only bytes that are there already |
| BlobCache.InvisibleThroughoutIff | src/avtomatika_worker/s3.py:160-187 | a run does so throughout if and only if all its steps are proper |
| BlobCache.SoundIff | src/avtomatika_worker/s3.py:165-187 | which steps keep every cache file the content of its tag, also when the store has something else under a tag that is cached |
| BlobCache.FetchAgrees | src/avtomatika_worker/s3.py:165-187 | on the hit, miss and untagged branches the path reads exactly the object's bytes and nothing else in a task directory changes |
| BlobCache.FetchIs | src/avtomatika_worker/s3.py:165-187 | the branches of a download: a link to the cache file, fetched only if missing, or the bytes at the path if there is no tag or an empty one |
| BlobCache.FetchRaisesIff | src/avtomatika_worker/s3.py:175-187 | with a sound cache it raises if and only if something is at a path above or below its own, or its own is the directory of the task |
| BlobCache.DanglingLinkRaises | src/avtomatika_worker/s3.py:175-177 | it raises at a link that leads nowhere |
| BlobCache.DownloadedOnce | src/avtomatika_worker/s3.py:174-180 | a tagged file is fetched over the network at most once |
| BlobCache.FolderArrives | src/avtomatika_worker/s3.py:221-232 | if each listed object that is not a directory could be downloaded by itself, the folder is downloaded if and only if no relative path is nested in another; then each object is at its own target and nothing else changed |
| BlobCache.FolderHolds | src/avtomatika_worker/s3.py:221-232 | entry by entry: objects whose path ends in a slash are passed over, every other is at its relative path in the folder, and no other path reads differently |
| BlobCache.NestedListingRaises | src/avtomatika_worker/s3.py:226-231 | a listing with a file and an object below it raises in either order |
| BlobCache.WriteThroughLink | src/avtomatika_worker/s3.py:185-187 | an untagged download or a write onto a link keeps the cache right if and only if it writes the same bytes |
| BlobCache.BrokenDownloadIsServed | src/avtomatika_worker/s3.py:174-180 | after a download that breaks off, through any run that does not write through a link to it, every download of that tag is a hit and reads the part |
| BlobCache.PartSpoilsIff | src/avtomatika_worker/s3.py:178 | a part in the cache makes it wrong if and only if the part is not the whole |
| BlobCache.PartStaysIff | src/avtomatika_worker/s3.py:174-187 | a proper step leaves the part in the cache if and only if it does not write through a link to it, and otherwise makes the cache right again |
| BlobCache.BlobStore.DownloadFileCached | src/avtomatika_worker/s3.py:165-187 | the branches of the code are the specified download; it raises only at a directory or a broken link, with the cache file left there |
| BlobCache.BlobStore.DownloadFolder | src/avtomatika_worker/s3.py:221-232 | the loop makes the directories above each listed object and downloads it, in order; if one raises, those before it are complete |
| BlobCache.BlobStore.CleanupTask | src/avtomatika_worker/s3.py:160-163 | a cleanup removes the directory of one task and leaves the cache |

## Left out

- Transports, signatures, TLS, token rotation, the health server, WebSocket commands: I/O and foreign libraries; their outcomes are arbitrary choices of the environment.
- Schema inference, decorators, dependency injection, parameter classes and middlewares: a handler is its outcome.
- Shutdown, and sending a result directly when the uploader is not alive (worker.py:1212-1218): its order races with the cancellation of the uploader, so conservation is stated for a live uploader.
- WeightedRoundRobin.ClientRing.constructor: takes the weights of the clients in use; the code sums those of the configured orchestrators (worker.py:400-404), which are others when clients are passed in.
- Exits by KeyboardInterrupt or SystemExit, which stop the event loop and hand over no result.
- Cancellation of the uploader while it sends.
- PollingModes.PollRound: is not wired into the task bookkeeping, where polls may come in any order, which covers all three modes.
- The periodic heartbeat loop's own backoff (worker.py:1355-1398): the same backoff function, already covered by the closed forms; the loop appears as sends at arbitrary moments.
- HTTP dates in Retry-After, and float special values and rounding: delays are reals and Retry-After is a given number.
- Several orchestrators sharing the one hash of the catalogue last synchronised: catalogue statements are for one orchestrator, for heartbeats that do not overlap, and for registrations that run while no heartbeat awaits its answer, although a debounced one may (worker.py:1262-1263).
- The URI parser, the relative-path function and the hash function belong to libraries that are not part of this model; they are arbitrary functions, the hash being free of collisions where a statement says so.
- Concurrent downloads of one object, and an object that changes between the metadata request and its download.
- A directory exists while it holds something; empty ones, and directories that a handler makes or removes, are absent. No file of a task lies in the cache directory, and the relative path of an object has at least one segment.
- BlobCache.FolderArrives: says nothing about two objects with one relative path, where the later overwrites the earlier.
- S3Payload.S3Manager.WalkParams: other tasks that change the count of active operations meanwhile are not shown; each walk adds and subtracts the same amount.
- TaskAdmission.TypeLimitsHold: assumes replies within the offer, since the code does not check the skill of a reply against it.
