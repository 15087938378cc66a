# Verified model of an HMI server, its client and its simulators

The project models the stateful core of a plant-monitoring system: a Rust server that polls controllers, raises and
clears alarms, keeps batch records and forwards register writes; the Flutter client that caches and downsamples the
readings; and the two simulators that stand in for the plant. Methods of classes follow the code statement by
statement and are tied, by their `ensures`, to functions on values. The theorems are about those functions, over every
run, every interleaving or every input.

| file | models | main results |
|---|---|---|
| `RateLimiter.dfy` | the per-IP token bucket | it is the maximal filter within its window bound; sweeps are invisible exactly if 300 idle seconds refill a bucket |
| `Alarms.dfy`, `AlarmRuns.dfy` | alarm rows, the alarm part of a poll, and its interleaving with operators | at most one open alarm per key that was never shelved; hysteresis; drain; cleared is final |
| `AlarmLimits.dfy` | the same, in numbers and states | which readings raise and clear an alarm of each register; which row an acknowledgement changes; how long a shelved alarm rests |
| `OneOpenAlarm.dfy` | the same runs | when exactly a key has at most one open alarm, step by step and over whole runs |
| `Batches.dfy` | batch rows and the batch tracker | for any stream of codes and any devices, the records equal an offline specification; closed records are frozen |
| `Poller.dfy` | one turn of the polling loop | a read drives the alarms and the tracker through one register map |
| `OpcUaSim.dfy` | the OPC UA simulator | period 120; sampling with bounded gaps counts every batch if and only if the bound is at most 10 ticks; with arbitrary gaps, exactly which cycles are recorded, and how they end |
| `BatchReactor.dfy` | the Modbus simulator | a batch completes within 117 ticks, and 117 is tight; when exactly progress falls; emergency stop holds; a counted batch went through all phases |
| `LoginThrottle.dfy` | login lockout | at most 5k + 4 failures in 900k seconds, reached for every k |
| `Dashboard.dfy`, `DashboardRuns.dfy`, `DashboardAlarms.dfy` | the dashboard store and its per-device caches | screen and caches are folds of the message log; alarms are exact and dated, and all but the dismissed ones are on the screen |
| `Downsampler.dfy` | grouping and averaging of history rows | field-by-field snapshots, partition, weighted conservation, strictly increasing times, most frequent state |
| `Timestamps.dfy`, `TimeSeries.dfy` | timestamps as text and the queries that compare them | text order is time order; purge and range queries mean instants |
| `OpcUaCache.dfy` | the OPC UA push cache | exactly which reads use the cache, and exactly when cached values are those of the present session; stale reads poll; the sixth disables the cache |
| `CachedReadings.dfy` | cached answers, as alarms and batches see them | exactly when a cached answer aborts a batch or clears an alarm without the session having reported a reason |
| `WritePipeline.dfy` | register writes from request to audit row | writes are a prefix of the accepted commands; success is real, failure has a reason; audit rows match successes |
| `Wrappers.dfy`, `Numbers.dfy` | optional values; shared arithmetic | |

## Reading the model

- Time is a parameter. Seconds on the monotonic clock are `real`, wall-clock seconds in alarm and batch rows are `int`.
  That comparing the stored texts means comparing instants is what `TextOrderIsTimeOrder` proves.
- Floating-point numbers are `real`. Register values are whole, so `val < warn * 0.95` is `100 * val < 95 * warn`.
- Database calls succeed, except that a duplicate batch id is rejected. `ack_alarm` and `shelve_alarm` are one atomic
  step each; a poll is several, and operators may act between them.
- The Modbus simulator's Gaussian noise is any number within one degree, and its sine any number in [-1, 1].

Where the code differs from its comments, or from a bound one might expect:

- The warning branch of the alarm check belongs to thresholds without a critical limit
  (`server/src/protocol.rs:160` pairs with line 143). Both thresholds have one, so the documented high-priority warning
  is never raised: `OnlyCriticalAlarms`.
- With shelving, two alarms for one register can be open at once, in two ways: un-shelving opens an alarm without
  looking for another (`ShelvingAllowsTwo`), and a poller raises on a look that un-shelving has made stale
  (`StaleLookAllowsTwo`). `KeepsOneOpenIff` and `AlwaysOneOpenIff` show that there is no third. The bound that always
  holds is about alarms that were never shelved.
- The lockout timer runs from the first failure, so nine failures fit into 15 minutes: `BoundIsReached`. Ten do not.
- A poll gap of 11 ticks across the idle phase of the OPC UA simulator loses a batch: `GapOfElevenLosesABatch`.
- A callback of a lost OPC UA session that counts after the reconnect makes an empty cache look fresh, so registers
  read 0 (`LateCountAnswersZero`), exactly if there are more such counts than used ones (`EmptySessionAnswersIff`);
  one that inserts serves a value of the old session (`LateInsertIsServed`).
- Even without late callbacks, a register that was not delivered yet reads 0 from the cache, which ends a running batch
  as aborted (`PartialDeliveryAborts`, exactly when: `FalseAbortOnTimeIff`).
- After an operator start from a later phase progress falls at the next tick (`ProgressCanFall`), exactly if it is more
  than the 33 that heating can make (`ProgressFallsIff`).
- The class comment of the Modbus simulator names two writable registers; the code, and the model, accept five.

## Model

| member | source | states |
|---|---|---|
| `RateLimiting.RateLimiter.Check` | server/src/rate_limit.rs:47-67 | answer and new bucket are those of the refill-then-spend step on the address's bucket; no other bucket changes |
| `RateLimiting.RateLimiter.Cleanup` | server/src/rate_limit.rs:70-74 | exactly the buckets idle for 300 seconds or more are dropped |
| `RateLimiting.SweepIsExact` | server/src/rate_limit.rs:70-74 | a bucket survives a sweep, unchanged, if and only if it was idle for less than 300 seconds |
| `RateLimiting.LevelWithinHeadroom` | server/src/rate_limit.rs:56-59 | the level a request finds is at most max + rate * (window length) - admitted, for every window ending with it |
| `RateLimiting.LevelIsSomeHeadroom` | server/src/rate_limit.rs:56-59 | some window attains it, so the level is the minimum over all windows |
| `RateLimiting.AdmitsExactlyWithinBounds` | server/src/rate_limit.rs:61-66 | a request is admitted if and only if that keeps every window ending with it within bounds |
| `RateLimiting.WindowBound` | server/src/rate_limit.rs:47-67 | every window [a, b] of every ordered request sequence admits at most max + rate * (b - a) |
| `RateLimiting.BucketIsMaximal` | server/src/rate_limit.rs:47-67 | no filter that respects the window bound, even one that knows the future, has admitted more after any prefix |
| `RateLimiting.BucketIsTheMaximalFilter` | server/src/rate_limit.rs:47-67 | the bucket's answers respect the window bound themselves, and are never behind any others that do |
| `RateLimiting.SweepsAndStrangersAreInvisible` | server/src/rate_limit.rs:47-74 | with many addresses and sweeps anywhere, each address is answered as if it had an unswept bucket of its own |
| `RateLimiting.SweepsAreInvisibleIff` | server/src/rate_limit.rs:70-74 | sweeps change no decision of any run if and only if 300 * rate >= max, or max < 1 |
| `RateLimiting.SlowRefillShowsSweeps` | server/src/rate_limit.rs:70-74 | otherwise a run is constructed that a sweep makes the limiter answer differently |
| `RateLimiting.DeployedWindowBound` | server/src/rate_limit.rs:98 | with the installed limits no address exceeds 100 + 20 per second in any window, whatever else happens |
| `Alarms.AlarmTable.RaiseAlarm` | server/src/db.rs:230-253 | one active row is appended and its id returned |
| `Alarms.AlarmTable.HasActiveAlarm` | server/src/db.rs:256-267 | true if and only if some row of the key is active or acknowledged |
| `Alarms.AlarmTable.GetActiveAlarmId` | server/src/db.rs:270-281 | the open alarm with the greatest id; None if and only if there is none |
| `Alarms.AlarmTable.AckAlarm` | server/src/db.rs:296-337 | succeeds exactly on an existing active alarm and changes that row alone |
| `Alarms.AlarmTable.ShelveAlarm` | server/src/db.rs:340-378 | succeeds exactly on an existing alarm that is not cleared; shelves it for at most 480 minutes |
| `Alarms.AlarmTable.ClearAlarm` | server/src/db.rs:381-392 | clears the row unless it is cleared already |
| `Alarms.AlarmTable.UnshelveExpired` | server/src/db.rs:395-405 | exactly the shelved rows whose time is over become active again |
| `Alarms.MonitorAlarms` | server/src/protocol.rs:138-189 | the loop over the thresholds has the effect of polling them one after the other, which `PollReacts` gives in numbers |
| `AlarmLimits.LimitsAreExact` | server/src/protocol.rs:25-28 | temperature clears at 80 or less and raises at 100 or more; pressure clears at 1139 or less and raises at 1400 or more |
| `AlarmLimits.ThresholdsInGeneral` | server/src/protocol.rs:143-181 | for any threshold: cleared below 0.95 of the high warning and above 1.05 of the low one; critical from the critical limit on, and a warning only without one |
| `AlarmLimits.PollReacts` | server/src/protocol.rs:138-189 | a whole poll, per register: an open alarm is cleared, the newest first, exactly by a reading of at most 80 (1139); a critical one is raised with that reading exactly if none is open and it is at least 100 (1400); nothing else changes which alarms are open |
| `AlarmLimits.HysteresisInNumbers` | server/src/protocol.rs:138-189 | without shelving, an active or acknowledged row exists exactly when the latest reading outside 81..99 (1140..1399) was at least 100 (1400) |
| `AlarmLimits.AckChangesOne` | server/src/db.rs:296-337 | an acknowledgement changes exactly the row it names, if that is active, and says by whom and when |
| `AlarmLimits.AckKeepsOpen` | server/src/db.rs:256-281 | it neither opens nor closes an alarm |
| `AlarmLimits.AcknowledgedByWhom` | server/src/db.rs:324-334 | in any run, a row names an acknowledger and a time only if that user acknowledged that row then |
| `AlarmLimits.StaysShelved` | server/src/db.rs:347-373 | a row shelved at t for m minutes rests through every run without a listing after t + 60 * min(m, 480), unless it is shelved again or cleared |
| `AlarmLimits.WakesAfter` | server/src/db.rs:395-405 | a listing makes a shelved row active if and only if its time is over |
| `Alarms.NoneOpen` | server/src/db.rs:256-267 | the list of open ids is empty exactly if no row of the key is open |
| `AlarmRuns.ClearedIsFinal` | server/src/db.rs:381-392 | in any interleaved run, a cleared row never changes again, and no row changes its device, register or priority |
| `AlarmRuns.OnlyCriticalAlarms` | server/src/protocol.rs:143-175 | every alarm ever raised is critical, with a value at or above its register's critical limit |
| `AlarmRuns.RowsAreWellFormed` | server/src/db.rs:296-405 | in any run: acknowledged rows name who and when, shelved rows by whom and until when, open rows have no shelving left, exactly the cleared rows have a clearing time |
| `AlarmRuns.NoAlarmStaysShelved` | server/src/db.rs:347-350 | whatever durations were asked for, listing alarms 8 hours after the last shelving leaves none shelved |
| `AlarmRuns.AtMostOneFreshAlarm` | server/src/protocol.rs:138-189 | with the poller's database calls interleaved arbitrarily with ack, shelve and un-shelve, a key has at most one open alarm that was never shelved |
| `AlarmRuns.AtMostOneOpenAlarm` | server/src/protocol.rs:138-189 | in runs without shelving a key has at most one open alarm |
| `OneOpenAlarm.KeepsOneOpenIff` | server/src/protocol.rs:138-189 | a step keeps "at most one open alarm per key" if and only if its guard holds: un-shelving finds no key with two rows that are open or expired, and a poller about to raise finds no open row |
| `OneOpenAlarm.AlwaysOneOpenIff` | server/src/protocol.rs:138-189 | throughout a run every key has at most one open alarm if and only if the guards hold at all its steps |
| `OneOpenAlarm.OneOpenUnlessWoken` | server/src/db.rs:395-405 | with any shelving, as long as no un-shelving finds an expired alarm, every key has at most one open alarm |
| `OneOpenAlarm.ShelvingAllowsTwo` | server/src/db.rs:395-405 | a run of the interleaved system whose un-shelving leaves two open alarms, with the poller between thresholds |
| `OneOpenAlarm.StaleLookAllowsTwo` | server/src/protocol.rs:140-154 | a run in which a poller raises the second alarm, because one was un-shelved after its look |
| `AlarmRuns.StepRefinesHandle` | server/src/protocol.rs:138-189 | as long as nothing is shelved or un-shelved, the interleaved poller refines handling one reading at a time |
| `AlarmRuns.Hysteresis` | server/src/protocol.rs:138-189 | without shelving, an alarm is open exactly when the latest reading that is not in the band was critical; `HysteresisInNumbers` gives the band |
| `AlarmRuns.RaisesAreSeparated` | server/src/protocol.rs:138-189 | between two raises for one key some handled reading was below 0.95 * warn |
| `AlarmRuns.Drain` | server/src/protocol.rs:178-187 | from any reachable state with the poller not between look and action, however many alarms are open: n safe readings close the n newest, newest first, while operators may acknowledge |
| `AlarmRuns.UndisturbedPoll` | server/src/protocol.rs:138-189 | with nobody else at work the stepwise poller does what the sequential loop does |
| `Batches.BatchIdInjective` | server/src/protocol.rs:199 | different devices or counters never print the same batch id, whatever the device names contain |
| `Batches.PaddedDigits` | server/src/protocol.rs:199 | batch numbers are printed with at least four digits, and no more than it takes beyond that |
| `Batches.FirstBatchId` | server/src/protocol.rs:198-199 | the first batch of a device named reactor is BATCH-reactor-0001 |
| `Batches.BatchTable.CreateBatch` | server/src/db.rs:604-630 | appends a running record; an id that exists is rejected and changes nothing |
| `Batches.CreatedKeepsUnique` | server/src/db.rs:85 | ids stay unique: inserting an id that exists changes nothing, any other appends its running record |
| `Batches.BatchTable.GetRunningBatch` | server/src/db.rs:284-293 | the batch id of the newest running record of the device |
| `Batches.BatchTable.UpdateBatchStatus` | server/src/db.rs:633-658 | sets status, end time and notes of the records with the id, keeping the old where none is given |
| `Batches.UpdateIsExact` | server/src/db.rs:633-658 | field by field what an update does to the records with the id: a final status dates the end, absent notes keep the old ones; records with other ids stay |
| `Batches.BatchTracker.Observe` | server/src/protocol.rs:192-221 | one observed code moves tracker and records as the edge rules say, across reconnects |
| `Batches.NextIdIsFree` | server/src/protocol.rs:84-86 | in every run the next batch id is unused, so the uniqueness constraint never rejects a batch |
| `Batches.RecordsAsExpected` | server/src/protocol.rs:192-221 | for any polls of any devices, a device's records equal the offline specification: one per IDLE-HEATING edge, completed or aborted by whichever of COMPLETE and IDLE comes first |
| `Batches.EveryStartIsRecorded` | server/src/protocol.rs:197-202 | every observed IDLE-HEATING edge of a device has its own record, with the outcome of the later observations |
| `Batches.AtMostOneRunning` | server/src/protocol.rs:205-217 | only the newest record of a device can be running, and none is after IDLE or COMPLETE |
| `Batches.ClosedRecordsAreFrozen` | server/src/protocol.rs:205-217 | a completed or aborted record never changes again in any field |
| `Batches.BatchesAreConserved` | server/src/protocol.rs:192-221 | starts seen = counter = records = completed + aborted + running, with running at most 1 |
| `Polling.Poller.Poll` | server/src/protocol.rs:117-222 | a failed read changes nothing; a successful one polls all thresholds and shows the tracker register 1032 if it was read |
| `Polling.RegMapIsExact` | server/src/protocol.rs:119-124 | every value read is found under its 16-bit wrapped address, and nothing else is found |
| `Polling.AddressIs` | server/src/protocol.rs:123 | an address is the sum of start and index, or that less 65536 once it runs past 16 bits |
| `OpcUaSim.SimState.Tick` | server/src/bin/opcua_sim.rs:242-315 | one tick on all four fields, and a state on the cycle stays on it |
| `OpcUaSim.ClosedForm` | server/src/bin/opcua_sim.rs:260-301 | from the default state, state and progress after n ticks are closed-form functions of n mod 120 |
| `OpcUaSim.CycleTable` | server/src/bin/opcua_sim.rs:260-314 | state, progress and agitator speed after n ticks, in numbers, for each part of the cycle |
| `OpcUaSim.UnknownStateResets` | server/src/bin/opcua_sim.rs:298-300 | a code that is no phase becomes idle |
| `OpcUaSim.SamplingTheorem` | server/src/protocol.rs:192-221 | sampled from tick 0 with gaps of at most 10, next to other devices, exactly (T+110)/120 batches are created, (T+25)/120 completed, none aborted |
| `OpcUaSim.GapOfElevenLosesABatch` | server/src/bin/opcua_sim.rs:260-301 | after any properly sampled cycles, a gap of 11 from the last tick of a cycle leaves the stored records one batch short |
| `OpcUaSim.SamplingWorksIff` | server/src/protocol.rs:192-221 | every sampling with gaps of at most g ticks, in any run, counts right if and only if g is at most 10 |
| `OpcUaSim.CycleRecordedIff` | server/src/protocol.rs:196-202 | with samples at any ticks, a cycle's batch is recorded if and only if a sample in its heating phase comes right after one in an idle phase, its own or an earlier one |
| `OpcUaSim.CycleRecordedOnce` | server/src/protocol.rs:196-202 | no cycle has two records |
| `OpcUaSim.RecordEndsAs` | server/src/protocol.rs:204-218 | a record is completed or aborted according to whether the first later sample in COMPLETE or in an idle phase is in COMPLETE; it runs as long as there is none |
| `LoginThrottling.LoginThrottle.CheckLoginThrottle` | server/src/auth.rs:332-347 | refuses exactly while locked, with the remaining seconds; an expired lockout is dropped |
| `LoginThrottling.LoginThrottle.RecordFailedLogin` | server/src/auth.rs:350-358 | counts one more; the time is that of the first failure |
| `LoginThrottling.LoginThrottle.ClearFailedLogin` | server/src/auth.rs:361-364 | forgets the user and nobody else |
| `LoginThrottling.LoginThrottle.HandleLogin` | server/src/auth.rs:551-616 | a refusal carries the remaining seconds and changes nothing; otherwise, verdict by verdict: unknown users and wrong passwords count one more and are Unauthorized, disabled users are Forbidden, a failed query is an InternalError, success forgets the user |
| `LoginThrottling.VerdictsAreLogged` | server/src/auth.rs:551-616 | in any run, a login that is not refused adds exactly one failure for NoSuchUser or WrongPassword, none for Disabled or QueryFailed, and Success ends the log |
| `LoginThrottling.OthersAreNotLogged` | server/src/auth.rs:332-364 | a login leaves the log and the entry of every other user alone |
| `LoginThrottling.CountNeverExceedsFive` | server/src/auth.rs:350-358 | in every run a stored count is between 1 and 5 |
| `LoginThrottling.RefusedExactly` | server/src/auth.rs:332-347 | a login is refused if and only if the failures since the last success fill groups of five and the last group began less than 900 s ago |
| `LoginThrottling.LockoutBound` | server/src/auth.rs:332-364 | any half-open window of 900k seconds holds at most 5k + 4 recorded failures since the last success, for every user, while logins of other users overlap freely |
| `LoginThrottling.BoundIsReached` | server/src/auth.rs:332-364 | for every k >= 1 some run has 5k + 4 failures within 900k seconds |
| `LoginThrottling.BoundsIff` | server/src/auth.rs:332-364 | for k >= 1, b bounds the failures of every run in 900k seconds if and only if b >= 5k + 4 |
| `BatchReactors.BatchReactor.Transition` | simulator/modbus_sim.py:150-153 | sets the phase and restarts the timer, nothing else |
| `BatchReactors.BatchReactor.Tick` | simulator/modbus_sim.py:88-148 | one tick on all modelled fields; with bounded noise it keeps temperature in [24, 80.4] and progress in 0..100 |
| `BatchReactors.TickMovesTemperature` | simulator/modbus_sim.py:93-141 | phase by phase: where a tick takes the temperature |
| `BatchReactors.TickShowsFraction` | simulator/modbus_sim.py:93-142 | the progress a tick shows is the fraction of its phase that is covered, on the phase's part of the scale, rounded down |
| `BatchReactors.BatchReactor.HandleWrite` | simulator/modbus_sim.py:155-210 | one operator write on all modelled fields; it keeps the same invariant |
| `BatchReactors.ReachableIsSound` | simulator/modbus_sim.py:88-210 | every reachable state keeps these ranges, the timer bounds of its phase, and IDLE while stopped |
| `BatchReactors.TickLowersRank` | simulator/modbus_sim.py:88-148 | every tick counts a batch or lowers a rank that is at most 117 |
| `BatchReactors.BatchCompletesWithin117` | simulator/modbus_sim.py:88-148 | from any reachable state that is not stopped, 117 ticks without writes complete a batch |
| `BatchReactors.WorstCaseIsReached` | simulator/modbus_sim.py:88-148 | 116 ticks from the start need not complete one, whatever the holding oscillation is at each tick |
| `BatchReactors.ProgressFallsIff` | simulator/modbus_sim.py:88-210 | with any operator writes, progress falls if and only if the event is a tick that finds progress in IDLE, or more than 33 at the first tick of HEATING |
| `BatchReactors.StartFromHoldingFalls` | simulator/modbus_sim.py:187-190 | once HOLDING has ticked, an operator start makes progress fall at the next tick, whatever the noise |
| `BatchReactors.ProgressCanFall` | simulator/modbus_sim.py:187-190 | a run from the initial state in which progress falls in HEATING |
| `BatchReactors.ProgressIsMonotone` | simulator/modbus_sim.py:88-210 | without operator starts, whatever else is written, progress never falls outside IDLE |
| `BatchReactors.StopHolds` | simulator/modbus_sim.py:181-192 | after an emergency stop the reactor stays IDLE and counts nothing through any ticks and writes except 1 to register 1032 |
| `BatchReactors.OverrideIsLastWrite` | simulator/modbus_sim.py:165-208 | an override is the last value written to its register, brought to the closest value of its safe range; 0 or a stop lifts it |
| `BatchReactors.WriteKeepsPlant` | simulator/modbus_sim.py:155-210 | a write leaves temperature, progress and count alone; only 0 and 1 to register 1032 change phase, timer and the stop |
| `BatchReactors.NoOverrideBeforeFirstWrite` | simulator/modbus_sim.py:69-86 | a register that was never written has no override |
| `BatchReactors.CountedBatchWentThroughAllPhases` | simulator/modbus_sim.py:93-153 | a batch is counted only after an uninterrupted HEATING, exactly 30 ticks of HOLDING, COOLING, and exactly 3 ticks of COMPLETE |
| `Dashboard.DeviceDataCache.Update` | app/lib/stores/dashboard_store.dart:229-255 | a reading moves the cache as the fold step says |
| `Dashboard.DashboardStore.CacheFor` | app/lib/stores/dashboard_store.dart:58-60 | returns the device's cache, adding an empty one if there was none; caches are never shared |
| `Dashboard.DashboardStore.SwitchDevice` | app/lib/stores/dashboard_store.dart:187-195 | the screen shows the new device's cache; nothing happens for the active one |
| `Dashboard.DashboardStore.RestoreFromCache` | app/lib/stores/dashboard_store.dart:199-220 | the screen equals the cache in every field |
| `Dashboard.DashboardStore.OnData` | app/lib/stores/dashboard_store.dart:223-286 | the cache of the reading's device is updated, the screen and the alarms only if the device is active |
| `Dashboard.DashboardStore.CheckAlarms` | app/lib/stores/dashboard_store.dart:365-431 | the alarms for the live values and the connection, on the screen and in the active device's cache |
| `Dashboard.DashboardStore.DismissAlarm` | app/lib/stores/dashboard_store.dart:433-436 | removes the alarms with the id from the screen alone |
| `Dashboard.DashboardStore.OnWsConnectionChanged` | app/lib/stores/dashboard_store.dart:179-182 | a connected socket implies a connected server |
| `DashboardRuns.ScreenShowsActiveCache` | app/lib/stores/dashboard_store.dart:187-286 | after any interleaving, the screen equals the active device's cache, and its alarms are a subsequence of the cache's |
| `DashboardRuns.CachesSummariseTheLog` | app/lib/stores/dashboard_store.dart:223-255 | each cache is a fold of the whole log: latest values, exactly the last 60 matching readings per register, and by the key of the first configuration entry with the reading's address, latest display values and batch state |
| `DashboardRuns.LookupFinds` | app/lib/config/dashboard_config.dart:49-55 | the store's lookup finds the first entry with the address, and none exactly if there is none |
| `DashboardRuns.ScreenSummarisesTheLog` | app/lib/stores/dashboard_store.dart:187-286 | so is the screen: switching devices loses and invents nothing |
| `DashboardAlarms.AlarmMembership` | app/lib/stores/dashboard_store.dart:365-425 | an alarm is listed, with its id, severity and register, if and only if some configured threshold issues it for the live value in the units of the first entry with the address, or it is the connection alarm and the socket is down while the server is up |
| `DashboardAlarms.AlarmsAreExact` | app/lib/stores/dashboard_store.dart:365-422 | an alarm of a severity and register is listed if and only if a configured threshold of the register calls for it |
| `DashboardAlarms.AlarmsDateFrom` | app/lib/stores/dashboard_store.dart:427-430 | the alarms kept for a device are those of its latest reading while it was on the screen; there are none before |
| `DashboardAlarms.ShowsAllButDismissed` | app/lib/stores/dashboard_store.dart:187-220 | the screen shows, in order, exactly the active device's alarms whose ids were not dismissed since they were computed or restored |
| `DashboardAlarms.DismissRemoves` | app/lib/stores/dashboard_store.dart:433-436 | dismissing removes every alarm with the id and no other |
| `DashboardAlarms.ActiveIsLastSwitch` | app/lib/stores/dashboard_store.dart:187-195 | the device on the screen is that of the last switch |
| `Downsampler.GroupBySecond` | app/lib/screens/history_screen.dart:148-177 | the first loop and the sort produce the list of per-second snapshots |
| `Downsampler.GroupByBucket` | app/lib/screens/history_screen.dart:181-187 | the insertion-ordered map of buckets is the list of consecutive groups |
| `Downsampler.MostFrequent` | app/lib/screens/history_screen.dart:203-210 | a code of the group that none exceeds in frequency and that appears before all equally frequent ones |
| `Downsampler.GroupByTimestamp` | app/lib/screens/history_screen.dart:147-215 | the whole function equals the downsampling of the per-second list |
| `Downsampler.DatedByFirst` | app/lib/screens/history_screen.dart:151-154 | a snapshot is dated by the first row of its second |
| `Downsampler.HoldsLast` | app/lib/screens/history_screen.dart:155-172 | a snapshot shows, field by field, the value of the last row of its second: 1028 as temperature, 1029 as pressure, and so on, 1032 truncated to a code, 1035 divided by 10 |
| `Downsampler.ZeroWithoutRow` | app/lib/screens/history_screen.dart:18-37 | a field whose register has no row in the second is 0 |
| `Downsampler.KeyIsSecond` | app/lib/screens/history_screen.dart:153-154 | rows of one second of time belong to one local second |
| `Downsampler.SecListIsExact` | app/lib/screens/history_screen.dart:176-177 | the list holds exactly the snapshots of all seconds, at strictly increasing times |
| `Downsampler.GroupsPartition` | app/lib/screens/history_screen.dart:181-187 | the groups are consecutive, non-empty, one per bucket, and concatenate to the list |
| `Downsampler.BucketHolds` | app/lib/screens/history_screen.dart:182-185 | bucket b holds exactly the snapshots whose milliseconds since the first lie in its interval |
| `Downsampler.MillisAre` | app/lib/screens/history_screen.dart:182-184 | milliseconds are whole thousands of microseconds, rounded toward the epoch |
| `Downsampler.AverageBetween` | app/lib/screens/history_screen.dart:196-201 | every averaged field lies between the minimum and the maximum of its group |
| `Downsampler.AverageFieldsBetween` | app/lib/screens/history_screen.dart:196-201 | the same, written out for each of the six averaged fields |
| `Downsampler.AverageShows` | app/lib/screens/history_screen.dart:194-210 | an output is dated by the middle of its group, shows its last progress, and its most frequent batch state |
| `Downsampler.WeightedIsSum` | app/lib/screens/history_screen.dart:196-201 | the size-weighted averages add up to the sum over all snapshots |
| `Downsampler.FineIntervalsKeepTheList` | app/lib/screens/history_screen.dart:179 | an empty list, or an interval of up to a second, leaves the per-second list as it is |
| `Downsampler.DownsamplingTheorem` | app/lib/screens/history_screen.dart:147-215 | for every history and interval: strictly increasing times, partition into buckets, conservation for every channel |
| `Timestamps.TextOrderIsTimeOrder` | server/src/db.rs:397-400 | byte-wise order of printed UTC timestamps with 0, 3, 6 or 9 fractional digits is exactly chronological order, for all instants of years 0 to 9999 |
| `Timestamps.InstantOrder` | server/src/db.rs:397-400 | chronological order is the lexicographic order of the calendar fields, leap years included |
| `Timestamps.FractionOrder` | server/src/db.rs:397-400 | fractions of different lengths compare like the nanoseconds they print, because the offset's sign sorts before every digit |
| `Timestamps.TextIs` | server/src/db.rs:397 | the text is year, month, day, T, hour, minute, second at fixed widths, a fraction of 0, 3, 6 or 9 digits, and the offset |
| `Timestamps.NextDay` | server/src/db.rs:397 | the day after is one day later, over the ends of months, leap or not, and of years |
| `Timestamps.DaysBeforeYearIs` | server/src/db.rs:397 | the days before a year, in closed form |
| `TimeSeries.SqliteTimeSeries.Insert` | server/src/tsdb.rs:54-65 | one reading is added |
| `TimeSeries.SqliteTimeSeries.PurgeOlderThan` | server/src/tsdb.rs:102-109 | exactly the readings before the cutoff instant are deleted, and counted |
| `TimeSeries.SqliteTimeSeries.QueryRange` | server/src/tsdb.rs:71-100 | the rows of the device within the text bounds, latest first, up to the limit |
| `TimeSeries.RangeMeansInstants` | server/src/tsdb.rs:71-100 | with printed bounds these are exactly the readings within the time range, in descending order of time |
| `TimeSeries.LimitKeepsLatest` | server/src/tsdb.rs:80-84 | a limit keeps that many of the readings in the range, and drops none that is later than one it keeps |
| `OpcUaCache.OpcUaClient.Connect` | server/src/opcua_client.rs:62-147 | cache and counters are cleared before the attempt; session, subscription and stale count are set only if it succeeds |
| `OpcUaCache.ConnectionIs` | server/src/opcua_client.rs:62-147 | what an undisturbed attempt leaves: empty cache and counters, and on success a session with the subscription that could be made |
| `OpcUaCache.OpcUaClient.ReadRegisters` | server/src/opcua_client.rs:149-213 | answers from the cache exactly when active and a delivery came since the last cached answer; otherwise polls, and a failed poll loses the session |
| `OpcUaCache.OpcUaClient.WriteRegister` | server/src/opcua_client.rs:215-255 | succeeds only with a session and an acknowledged write; a failure loses the session and the cache |
| `OpcUaCache.OpcUaClient.InsertItems` | server/src/opcua_client.rs:306-314 | a delivery's items go into the cache in order |
| `OpcUaCache.CacheAgrees` | server/src/opcua_client.rs:149-213 | callbacks of this and of earlier sessions, reads and reconnects interleaved at their locks: every cached answer gives each register the latest value inserted since the clear, or 0, with every counted own delivery taken into account; answers never outnumber own deliveries and late counts |
| `OpcUaCache.ReadUsesCacheIff` | server/src/opcua_client.rs:154-166 | in every run, a read uses the cache if and only if it is on and the present session or a late callback has counted since the last read that did; it then uses up all counts |
| `OpcUaCache.AnswersConsumeCounts` | server/src/opcua_client.rs:154-166 | each cached answer rests on an own or a late count that the answer before it had not used |
| `OpcUaCache.EmptySessionAnswersIff` | server/src/opcua_client.rs:154-166 | while the present session has delivered nothing, a read is answered from the cache if and only if there are more late counts than used ones |
| `OpcUaCache.EmptyCacheAnswersZeros` | server/src/opcua_client.rs:161-165 | and if nothing late was inserted either, that answer is all zeros |
| `OpcUaCache.CacheAgreesOnTime` | server/src/opcua_client.rs:149-213 | without late callbacks: every cached answer gives each register the session's latest delivered value, with every counted delivery taken into account, and answers never outnumber deliveries |
| `OpcUaCache.ValueIsOwnIff` | server/src/opcua_client.rs:306-314 | a cached value is one that the present session delivered, and its latest, if and only if some delivery mentions the register and the last that does was not late, or repeated the value |
| `OpcUaCache.UnreportedIff` | server/src/opcua_client.rs:161-165 | a cached value has a property that the present session's latest has not, if and only if no delivery mentions the register and 0 has it, or the last mention was late with a value that has it |
| `OpcUaCache.LateCountAnswersZero` | server/src/opcua_client.rs:68-74 | a run in which a count after the reset makes a read answer 0 from an empty cache |
| `OpcUaCache.LateInsertIsServed` | server/src/opcua_client.rs:306-319 | a run in which a read answers with a value that the present session never delivered |
| `OpcUaCache.LatestSource` | server/src/opcua_client.rs:306-321 | that value comes from a delivery that mentions the register, and none after it does |
| `OpcUaCache.StaleReadsPoll` | server/src/opcua_client.rs:154-175 | without counted deliveries no read is answered from the cache, and it stays active exactly through the fifth of them |
| `OpcUaCache.DisabledUntilConnect` | server/src/opcua_client.rs:154-175 | once disabled the cache answers nothing before the next connect |
| `OpcUaCache.FailureDisconnects` | server/src/opcua_client.rs:203-212 | a failed poll or write gives up session, subscription and cache; a successful one changes nothing |
| `OpcUaCache.DisconnectedUntilConnect` | server/src/opcua_client.rs:257-259 | and there is no session before the next successful connect |
| `CachedReadings.PollerReads` | server/src/protocol.rs:119-124 | the poller finds a cached value under its register |
| `CachedReadings.AbortsIff` | server/src/protocol.rs:213-217 | in any run, a poll aborts a batch of the device if and only if one is running and the code is IDLE |
| `CachedReadings.FalseAbortIff` | server/src/protocol.rs:192-217 | a cached answer aborts a batch that the session did not report as IDLE if and only if a batch is running and no delivery since the connect mentions the batch state, or the last that does was a late IDLE |
| `CachedReadings.FalseAbortOnTimeIff` | server/src/protocol.rs:192-217 | without late callbacks: if and only if a batch is running and nothing delivered since the connect mentions the batch state |
| `CachedReadings.FalseClearIff` | server/src/protocol.rs:177-187 | a cached answer closes an alarm without a safe value from the session if and only if one is open and no delivery mentions the register, or the last that does was late and safe |
| `CachedReadings.PartialDeliveryAborts` | server/src/opcua_client.rs:161-165 | a run in which a first delivery of the temperature alone leads to an aborted batch |
| `WritePipeline.WriteChannel.Send` | server/src/routes.rs:382-395 | queues at the end exactly if the channel is open and has fewer than 32 commands; refuses exactly if it is closed |
| `WritePipeline.WriteChannel.Recv` | server/src/protocol.rs:101 | takes the oldest command |
| `WritePipeline.RunKeepsAll` | server/src/routes.rs:333-438 | order, validation, accountability, honesty and audit invariants hold in every interleaved run |
| `WritePipeline.WritesAreAPrefix` | server/src/protocol.rs:99-114 | the writes tried on the PLC are a prefix of the accepted commands, each request at most once, to writable registers only, across reconnects |
| `WritePipeline.SuccessIsReal` | server/src/routes.rs:400-437 | a client is told of success only if the PLC carried out exactly its write |
| `WritePipeline.FailureHasReason` | server/src/routes.rs:360-437 | in every run, a client whose write was replied a success is never told of a failure; a failure means an unwritable register, a failed reply, or a task that is gone and left no reply |
| `WritePipeline.ReplyIsPassedOn` | server/src/routes.rs:400-437 | a handler with a reply answers with it, and leaves one audit row exactly for an authenticated success |
| `WritePipeline.UndisturbedWrite` | server/src/protocol.rs:99-114 | an undisturbed write is tried once with its register and value, and its outcome answered and audited |
| `WritePipeline.LostWriteDisconnects` | server/src/protocol.rs:108-112 | a reply disconnects exactly if the write failed and lost the connection |
| `WritePipeline.NothingAttemptedWhileDown` | server/src/protocol.rs:91-112 | while the device is disconnected no command is tried, through any steps |
| `WritePipeline.OldestIsNext` | server/src/protocol.rs:91-112 | once it is connected the oldest waiting command is tried, and leaves the queue |
| `WritePipeline.AbortDropsAll` | server/src/routes.rs:142-187 | a removed device's queue is dropped with its task |
| `WritePipeline.NothingAfterAbort` | server/src/routes.rs:142-187 | from then on nothing is tried, written or replied, through any steps |
| `WritePipeline.GoneAnswersFailure` | server/src/routes.rs:389-437 | and handlers that wait for a place or for a reply are answered with a failure |
| `WritePipeline.AuditMatchesSuccesses` | server/src/routes.rs:400-425 | audit rows and successful authenticated responses correspond one to one |

## Left out

- HTTP, WebSocket, TLS, CORS, routing, JSON, CSV, JWT, Argon2 and configuration parsing: library plumbing around the modelled code.
- Sessions, roles and password complexity: single-function facts.
- Network transport and discovery: a connection attempt, a read or a write is an outcome chosen by the environment.
- Floating-point rounding, NaN and infinities: `f64`, Dart `double` and Python `float` are `real`; a Python `int` of a float is truncation of a real.
- `OpcUaSim.SimState.Tick`: does not model the 32-bit wrap of the tick count, nor the sinusoidal temperature, pressure, humidity, flow and pH, which influence nothing else.
- `BatchReactors.BatchReactor.Tick`: does not model pressure, humidity, flow, agitator speed and pH, which influence nothing else, and takes the noise as bounded, which a Gaussian is not.
- `BatchReactors.BatchCompletesWithin117`: assumes noise within one degree; without a bound on the noise no number of ticks suffices.
- `Batches.BatchTracker.Observe`: does not model the 32-bit wrap of the batch counter; reading the running batch and updating it is one step, which only another writer of the same device's records could notice, and there is none.
- Process restart and two pollers for one device id: the tracker's counter starts again at zero then, and the uniqueness constraint would reject its batches.
- `Alarms.AlarmTable.RaiseAlarm`: does not model label, message and raising time, which no decision reads; likewise recipe, operator and steps of batch records, and the comment appended by an acknowledgement.
- `Alarms.AlarmTable.ShelveAlarm`: times are whole seconds rather than RFC 3339 text; the comparison of the texts is verified separately in `Timestamps`.
- Alarm and batch rows, snapshots and dashboard alarms are values in sequences rather than objects; updates in place of single rows are updates of the sequence.
- `Polling.Poller.Poll`: takes one clock reading for the whole turn and leaves out the database rows and messages per reading.
- `LoginThrottling.LockoutBound`: logins of one username are handled one at a time; concurrent ones can all pass the throttle before any failure is recorded.
- `Dashboard.DashboardStore.OnData`: the named display values are a map from field to value instead of one field each; a divisor of 0, for which Dart yields infinity, is excluded by the type; alarm messages are left out.
- `Downsampler.GroupByTimestamp`: times are whole microseconds, the local calendar an arbitrary function on seconds, and the sums are recursive functions in place of `fold`; `List.sort` is a stable sort, which does not matter because all times are distinct.
- `Timestamps.TextOrderIsTimeOrder`: does not model leap seconds or years with more than four digits.
- `TimeSeries.SqliteTimeSeries.QueryRange`: rows with equal timestamps come in insertion order, which the database leaves open; conversion of found rows back to readings is left out.
- `OpcUaCache.OpcUaClient.Connect`: poisoned locks are not modelled; counters do not wrap. At most one callback of the present session runs at a time; any number of late ones may.
- `WritePipeline.RunKeepsAll`: the handler and the polling task are steps of a state machine rather than methods, since they wait for each other; unknown devices and malformed requests are left out; a handler that waits for a place in the channel tries again in any order.
- Liveness of the write pipeline and of reconnecting: only safety is stated.
