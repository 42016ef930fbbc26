# Beszel: alerts, requests, rollups, network rates

This project models five parts of the Beszel hub and agent and proves what they promise, over every
input, every run or every interleaving:

1. **Status alerts** (`alerts_*.dfy`, `status_*.dfy`): the system and alert tables, the alerts
   cache, the pending timers, the manager's registry of systems, the clock and hub restarts form one
   state machine. `StatusProtocol` is its transition function, `StatusInvariant` the invariant of guarded
   runs, `StatusCache` that of all runs, `StatusFailure` the run that shows what the guard is for,
   `StatusNotices` what users are told over a run, `StatusEffects` what each event does field by field and that a
   due alert is announced, and `StatusHub.Hub` the hub as an object whose methods, loops included, are proved to
   take exactly those transitions.
2. **Requests over one WebSocket** (`request_*.dfy`): senders, one reader, a watcher and a receiver per
   request, and `Close`, interleaved at every critical section. `RequestManagement` holds the mutable
   manager.
3. **Rollup, retention and averaging** (`rollup_*.dfy`, `averages.dfy`, `hierarchy.dfy`, `system_stats*.dfy`,
   `stats_hierarchy.dfy`, `container_*.dfy`): the two jobs over shared tables, the
   averaging folds themselves, and what survives tier after tier.
4. **Network rates** (`words.dfy`, `delta_tracker.dfy`, `network_*.dfy`, `docker_*.dfy`): the per-interval trackers
   and baselines of the agent, with 64-bit wrap-around written out.
5. **Threshold alerts** (`system_alerts*.dfy`): the interleaved records × alerts pass, proved equal to a
   separate windowed decision per alert.

In each part a pure transition or specification function says what happens, an imperative class or method
in the shape of the Go code is proved to do exactly that, and the laws are proved of the function. The modules named `…Effects` and
`…Fields` say what the steps and averages are in plain fields and numbers, without the helper functions they are
defined by.

## Reading the model

- Quantities with two decimals are integers in hundredths; percentages and thresholds of threshold alerts
  are `real`. Rounding is exact (half away from zero), so nothing is claimed about the last bit of a float.
- 64-bit counters are written `% 2^64`, request ids `% 2^32`, sample counts and minute counts `% 256`.
- Times are integers: seconds for status alerts and records, milliseconds for threshold alerts,
  nanoseconds for the agent, whose elapsed milliseconds are truncated as in the code. Where the code
  reads the clock twice in a row, the model reads it once.
- A loop over a Go map becomes a loop that picks an arbitrary remaining key; what is proved holds for
  every order. Query results and cache listings that come in no particular order are likewise arbitrary.

Assumptions about the environment:

- Status alerts: saves succeed; users create alerts untriggered and never change an alert's system or name
  (if they did, `AlertsStore.UpdateSyncedIffSystemUnchanged` says exactly when the cache breaks); only the hub writes
  `triggered`; row ids are new and not empty; each hook, callback and restart is atomic; a timer fires no
  earlier than it is due.
- A down system is not written straight to `pending` while it has a running timer, or while a connection
  is attached and an alert is triggered. That guard is exact: see `StatusInvariant.PendingWriteIff`.
- Requests: one reader per connection, because the upgrader's default options do not handle messages in parallel
  (internal/hub/ws/ws.go:51), and at most 2^32 sends per connection. The bound is tight, see
  `RequestInvariant.OneSendTooMany`.
- Rollup: the clock does not run backwards past a cleanup, and a longer record is saved no earlier than its
  window was computed.

Findings, each a theorem below:

- A direct down-to-pending write can leave a timer running for a system that is no longer down; a run from a
  fresh hub is given (`StatusFailure.DirectPendingWriteLeavesTimer`).
- An alert saved before the cache knows its system hides the system's other alerts from later lookups
  (`AlertsStore.InsertBeforePopulation`). The cache is populated before the hub serves requests, so that is a
  state before population, which the running hub does not reach (`StatusCache.NoShelfIsMissing`).
- A drop of a network total is noticed exactly when -1000 times the drop, as a 64-bit word, is still large
  enough (`NetworkLaws.DropNoticedIff`); a noticed drop in one interval costs every interval its baseline
  (`NetworkLaws.DropIsContained`).
- Whether a threshold alert is evaluated depends on the other alerts that wait with it, through the widest
  window only (`SystemAlertsLaws.KeptIff`, `SystemAlertsLaws.MoreAlertsKeepMore`).
- The 8-bit sample count makes means wrong from 256 samples on (`SystemAlertsLaws.MeanIsTrueIff`), and can flip
  an alert none of whose samples is on the other side. `SystemAlertsLaws.OneSidedSafeIff` says exactly for
  which numbers of samples it cannot, `SystemAlertsLaws.ManySamplesFlipWrongly` gives a table. One record a
  minute, kept for an hour and deleted hourly, stays below 256; more come from extra updates. A connecting
  agent is asked for data at once and again after a short jitter (internal/hub/systems/system.go:59-62 and
  80-85), and a pending write on a connected system asks for data too (internal/hub/systems/system_manager.go:111-114),
  so an agent that keeps reconnecting, or a system paused and resumed again and again, gets there.
- The published network totals count an interface with its whole counter if it is tracked but was missing from
  the first sample of an interval (`NetworkTotals.MissingAtFirstOverReports`), or if other traffic hid its absence
  from the sample before. An idle one missing between two samples is noticed instead
  (`NetworkTotals.MissingInBetweenResets`). `NetworkTotals.TotalsHonestIff` says exactly when real traffic covers
  the rise of a total.
- Threshold alerts need a record older than their window, but one-minute records are deleted hourly once they
  are an hour old. An alert over two hours or more is therefore never evaluated, and one over an hour not right
  after a cleanup (`SystemAlertsRetention.TwoHourAlertsNeverFire`, `SystemAlertsRetention.SixtyMinuteAlertKeptOut`).
- A filesystem that vanished keeps counting towards disk alerts with its last reading
  (`SystemAlertsLaws.DiskSumsAre`); `SystemAlertsLaws.CarryOverIff` says exactly when that changes a sum.

## Model

| member | source | states |
|---|---|---|
| AlertsStore.PopulatedSynced | internal/alerts/alerts_cache.go:67-81 | right after population the cache holds exactly the projections of the table's rows |
| AlertsStore.SyncedLoadIsExact | internal/alerts/alerts_cache.go:111-133 | in a synced cache, listing a system, lazily loaded or not, gives exactly its rows |
| AlertsStore.UpdateKeepsSynced | internal/alerts/alerts_cache.go:84-97 | saving a row of an unchanged or new system keeps the cache exact |
| AlertsStore.DeleteKeepsSynced | internal/alerts/alerts_cache.go:100-108 | deleting a row keeps the cache exact |
| AlertsStore.UpdateSyncedIffSystemUnchanged | internal/alerts/alerts_cache.go:84-97 | an update keeps the cache exact if and only if it does not move an alert between systems |
| AlertsStore.InsertBeforePopulation | internal/alerts/alerts_cache.go:84-97 | a new alert leaves its system's listing exact if and only if the system's shelf was loaded already or the system has no other alert |
| AlertsCaching.AlertsCache.Update | internal/alerts/alerts_cache.go:84-97 | the new cache is the updated one; a row without system changes nothing |
| AlertsCaching.AlertsCache.Delete | internal/alerts/alerts_cache.go:100-108 | the entry goes, from its system's shelf only |
| AlertsCaching.AlertsCache.PopulateFromDB | internal/alerts/alerts_cache.go:67-81 | replaying every row gives the populated cache, once unless forced |
| AlertsCaching.AlertsCache.GetSystemAlerts | internal/alerts/alerts_cache.go:111-133 | lists each cached alert of the system once, loading the shelf only when absent |
| AlertsCaching.AlertsCache.GetAlert | internal/alerts/alerts_cache.go:136-141 | finds an alert if and only if it is cached under that system |
| AlertsCaching.AlertsCache.GetAlertsByName | internal/alerts/alerts_cache.go:144-153 | lists exactly the alerts of that name, each once |
| AlertsCaching.AlertsCache.GetAlertsExcludingNames | internal/alerts/alerts_cache.go:156-169 | lists exactly the alerts of other names, each once |
| AlertsCaching.AlertsCache.Refresh | internal/alerts/alerts_cache.go:172-177 | succeeds if and only if the snapshot's alert is still cached, and then returns the latest copy |
| AlertsCaching.ReplayAnyOrder | internal/alerts/alerts_cache.go:67-81 | updating the empty cache row by row, in any order, populates it with exactly those rows |
| AlertsFields.PopulatedFields | internal/alerts/alerts_cache.go:21-37 | after population each row is cached under its system with its own user, name, threshold, flag and minutes modulo 256, and nothing else is |
| StatusInvariant.StepKeepsInv | internal/hub/systems/system_manager.go:97-139 | every event keeps: a pending alert is an untriggered Status alert of a down system, a triggered one's system is down, the registry follows the table, the cache is exact |
| StatusInvariant.PendingWriteIff | internal/hub/systems/system_manager.go:111-120 | a write of `pending` keeps the invariant if and only if the guard on down systems holds |
| StatusFailure.DirectPendingWriteLeavesTimer | internal/hub/systems/system_manager.go:111-120 | a run from a fresh hub, guarded up to its last event, whose down-to-pending write leaves a timer running for a pending system |
| StatusInvariant.RunKeepsInv | internal/alerts/alerts_status.go:53-139 | the invariant holds in every state of every run |
| StatusInvariant.PendingAndTriggeredMeanDown | internal/alerts/alerts_status.go:53-139 | in every reachable state pending implies down and untriggered, and triggered implies down |
| StatusCache.StepKeepsCache | internal/alerts/alerts_cache.go:49-133 | every enabled event, an unguarded pending write included, keeps the cache exact |
| StatusCache.CacheAnswersExactly | internal/alerts/alerts_cache.go:49-133 | in every state of every run, guarded or not, the cache answers for each system with exactly its rows |
| StatusCache.NoShelfIsMissing | internal/alerts/alerts_cache.go:84-97 | in every state of every run each row is cached under its system, so an update never meets an absent system that has alerts |
| AlertsFields.AnsweredFields | internal/alerts/alerts_cache.go:21-133 | in every state of every run the cache answers for a system with exactly its rows, each with its own user, name, threshold, flag and minutes modulo 256 |
| StatusInvariant.RestartRecovers | internal/alerts/alerts_status.go:206-239 | after a restart exactly the untriggered Status alerts of down systems are pending, each for a full delay again, so every existing alert pending before still is |
| StatusInvariant.GoingDownSchedulesAll | internal/alerts/alerts_status.go:53-79 | an up-to-down write makes every Status alert of the system pending, due after max(1, min) minutes |
| StatusInvariant.TimerKeepsInv | internal/alerts/alerts_status.go:125-139 | a timer that fires keeps the invariant, whatever became of its alert |
| StatusInvariant.PausedKeepsInv | internal/hub/systems/system_manager.go:107-110 | pausing deactivates and cancels enough to keep the invariant |
| StatusInvariant.DeactivateEffect | internal/hub/systems/system_manager.go:210-223 | deactivation clears exactly the listed rows' flags and keeps the cache exact |
| StatusInvariant.DownEffect | internal/alerts/alerts_status.go:53-60 | going down adds timers for exactly the listed alerts and never moves one that runs |
| StatusInvariant.UpEffect | internal/alerts/alerts_status.go:83-96 | coming up removes all listed timers and triggered flags and touches nothing else |
| StatusNotices.DownNoticesAlternate | internal/alerts/alerts_status.go:125-147 | between two down notices of an alert there is an up notice, a pause or pending write of its system, or its deletion or its system's |
| StatusNotices.UpNoticesAlternate | internal/alerts/alerts_status.go:83-96 | between two up notices of an alert there is a down notice |
| StatusNotices.NoPrematureDown | internal/alerts/alerts_status.go:53-79 | a down notice rests on a scheduling at least max(1, min) minutes earlier, with no recovery, pause, pending write, deletion or restart since |
| StatusNotices.DueNeverMoves | internal/alerts/alerts_status.go:62-79 | no event other than a restart moves the due time of an alert that stays pending |
| StatusNotices.RunKeepsNotices | internal/alerts/alerts_status.go:142-171 | the history of every alert agrees with its stored flag and timer throughout every run |
| StatusEffects.TimerSends | internal/alerts/alerts_status.go:125-171 | a timer that fires for an existing alert sends exactly one "down" notice, sets the row's flag and is gone; for a deleted one nothing but the timer goes |
| StatusEffects.AnnouncedInTheEnd | internal/alerts/alerts_status.go:62-139 | over any stretch of a run in which its system neither comes up, is suspended nor deleted, and the hub does not restart, a pending alert keeps its due time, and from then on its timer can fire, which announces it |
| StatusEffects.GoingDown | internal/alerts/alerts_status.go:33-79 | an up-to-down write makes exactly the system's Status alerts pending, due after 60 max(1, min mod 256) seconds, keeps running timers, sends nothing and changes no row |
| StatusEffects.ComingUp | internal/alerts/alerts_status.go:83-96 | a down-to-up write sends exactly one "up" notice for each triggered Status alert of the system and nothing else, clears their flags and timers and leaves all others alone |
| StatusEffects.Pausing | internal/hub/systems/system_manager.go:107-110 | pausing takes the system's timers and the flags of all its rows, and nothing else |
| StatusEffects.WritingPending | internal/hub/systems/system_manager.go:111-120 | a pending write registers the system anew and clears its rows' flags, or, with a connection attached, does neither |
| StatusEffects.NoTransition | internal/hub/systems/system_manager.go:121-139 | writing up or down without a transition between the two changes no row and no timer and sends nothing |
| StatusEffects.Restarting | internal/alerts/alerts_status.go:206-239 | a restart sends nothing, keeps all rows, makes exactly the untriggered Status alerts of down systems pending for their full delay and registers every system that is not paused |
| StatusEffects.Connections | internal/hub/systems/system_manager.go:194-208 | an agent that connects registers its system with its stored status and the connection attached |
| StatusEffects.TableEvents | internal/alerts/alerts_cache.go:49-64 | creating, editing and deleting alerts and systems changes exactly their own rows, a deleted system's alerts included, touches no timer and sends nothing |
| StatusEffects.AnyStatusCanBeWritten | internal/hub/systems/system_manager.go:97-139 | in every state that keeps the invariant any status of any system can be written |
| StatusHub.Hub.SchedulePendingStatusAlert | internal/alerts/alerts_status.go:62-79 | schedules only an alert without a timer, keeping a running one |
| StatusHub.Hub.HandleSystemDown | internal/alerts/alerts_status.go:53-60 | the loop is the protocol's step for going down |
| StatusHub.Hub.HandleSystemUp | internal/alerts/alerts_status.go:83-96 | the loop cancels a pending alert silently and resolves a triggered one, as the protocol says |
| StatusHub.Hub.CancelPendingAlert | internal/alerts/alerts_status.go:99-111 | removes the timer if there is one and reports whether there was |
| StatusHub.Hub.CancelPendingStatusAlerts | internal/alerts/alerts_status.go:114-122 | removes exactly the timers of the system |
| StatusHub.Hub.ProcessPendingAlert | internal/alerts/alerts_status.go:125-139 | the timer goes, and the cached alert, untriggered by then, is sent as down: the protocol's step, which TimerSends says in fields |
| StatusHub.Hub.SendStatusAlert | internal/alerts/alerts_status.go:142-171 | writes the flag and sends one notice, neither for a vanished row |
| StatusHub.Hub.RestorePendingStatusAlerts | internal/alerts/alerts_status.go:206-239 | schedules exactly the selected rows through the cache |
| StatusHub.Hub.HandleStatusAlerts | internal/alerts/alerts_status.go:33-51 | dispatches to the down or up step over the cached Status alerts |
| StatusHub.Hub.OnRecordAfterUpdateSuccess | internal/hub/systems/system_manager.go:97-139 | the hook's branches, with the loops they call, are the protocol's status write |
| StatusHub.Hub.AddSystem | internal/hub/systems/system_manager.go:146-161 | registers a system unless it is registered already or lacks an id or host |
| StatusHub.Hub.RemoveSystem | internal/hub/systems/system_manager.go:163-176 | unregisters exactly that system, if registered |
| StatusHub.Hub.AddRecord | internal/hub/systems/system_manager.go:178-192 | replaces the registration with the row's status |
| StatusHub.Hub.DeactivateAlerts | internal/hub/systems/system_manager.go:210-223 | clears the flag of exactly the triggered rows of the system, through the cache |
| StatusHub.Hub.SetAlertTriggered | internal/alerts/alerts.go:124-131 | writes the flag of an existing row and fails for a missing one |
| StatusHub.Hub.WriteStatus | internal/hub/systems/system.go:175-180 | any status write with its hook is one legal event of the protocol |
| StatusHub.Hub.SetDown | internal/hub/systems/system.go:246-275 | a failed update writes down, unless the system is remembered as down or paused; one whose row is gone is unregistered |
| StatusHub.Hub.Restart | internal/alerts/alerts.go:74-82 | population followed by restoring is the protocol's restart event |
| RequestInvariant.RunKeepsInv | internal/hub/ws/request_manager.go:45-199 | the protocol invariant holds after every interleaving with at most 2^32 sends |
| RequestInvariant.ExactlyOnce | internal/hub/ws/request_manager.go:103-163 | every message that arrived is in exactly one place: delivered to one request, closed by the manager, or in the reader's hands; no request is delivered to twice |
| RequestInvariant.ReaderNeverBlocks | internal/hub/ws/request_manager.go:128-136 | whenever the reader holds a message the channel it sends to has room |
| RequestInvariant.NoRequestLost | internal/hub/ws/request_manager.go:66-83 | ids are pairwise distinct, and a request that is not in the map was delivered to or has a done context |
| RequestInvariant.ResponsesReachTheirRequest | internal/hub/ws/request_manager.go:116-135 | a response with an id is only ever in the channel, or with the receiver, of the request with that id |
| RequestInvariant.WatcherTouchesOnlyItsOwn | internal/hub/ws/request_manager.go:166-181 | a watcher leaves every other request and its place in the map alone |
| RequestInvariant.SameIdIff | internal/hub/ws/request_manager.go:46 | two requests share an id if and only if their numbers are a multiple of 2^32 apart |
| RequestInvariant.StoreLosesIff | internal/hub/ws/request_manager.go:66-68 | storing a request keeps all others accounted for if and only if its id is free or taken by a finished request |
| RequestInvariant.OneSendTooMany | internal/hub/ws/request_manager.go:46-68 | with 2^32 + 1 sends there is a run that loses the first request |
| RequestInvariant.ClosedAtMostOnce | internal/hub/ws/ws.go:135-161 | a message taken by a receiver, which closes it, was closed by nobody else and is with no other request |
| RequestInvariant.CloseKeepsInv | internal/hub/ws/request_manager.go:190-199 | Close keeps the invariant: every request it removes is done |
| RequestEffects.ResponseWithId | internal/hub/ws/request_manager.go:116-126 | a response with an id is held for the request pending under it, and closed only if there is none |
| RequestEffects.LegacyResponse | internal/hub/ws/request_manager.go:139-162 | a response without an id is held for a pending request none was created before, and closed only if nothing is pending |
| RequestEffects.ReaderMoves | internal/hub/ws/request_manager.go:128-135 | the reader puts the message into the channel of exactly that request whenever it has room, and may close it only if the context is done |
| RequestEffects.ResponseGetsThrough | internal/hub/ws/request_manager.go:103-136 | in every reachable state with an idle reader a response for a waiting request can be held, delivered, taken out and received, and ends with that request's receiver |
| RequestEffects.SenderMoves | internal/hub/ws/request_manager.go:45-83 | ids count up modulo 2^32, a request is stored under its own id and watched once it is sent |
| RequestEffects.ContextMoves | internal/hub/ws/request_manager.go:166-181 | a context ends for its own request, whose watcher then takes it, and nothing else, out of the map |
| RequestEffects.CloseEndsAll | internal/hub/ws/request_manager.go:190-199 | Close ends the contexts of exactly the requests in the map, and empties it |
| RequestManagement.RequestManager.Allocate | internal/hub/ws/request_manager.go:45-64 | increments the wrapping id and creates the request |
| RequestManagement.RequestManager.Store | internal/hub/ws/request_manager.go:66-68 | puts the request into the map under its id |
| RequestManagement.RequestManager.LookUpById | internal/hub/ws/request_manager.go:116-126 | finds a request if and only if the map holds one under the id |
| RequestManagement.RequestManager.LookUpOldest | internal/hub/ws/request_manager.go:139-148 | finds a pending request that none precedes, and none only if the map is empty |
| RequestManagement.RequestManager.HandleResponse | internal/hub/ws/request_manager.go:103-163 | a response undisturbed by others is delivered to the request pending under its id, or to one that none precedes, and that request leaves the map; it is closed only if there is none or its context is done |
| RequestManagement.RequestManager.CancelRequest | internal/hub/ws/request_manager.go:172-181 | ends the context of the request found and removes it |
| RequestManagement.RequestManager.DeleteRequest | internal/hub/ws/request_manager.go:183-187 | removes without ending the context |
| RequestManagement.RequestManager.CleanupRequest | internal/hub/ws/request_manager.go:166-170 | a watcher's end is the protocol's watcher event |
| RequestManagement.RequestManager.Close | internal/hub/ws/request_manager.go:190-199 | ends every pending context and empties the map |
| RollupJobs.CleanupIsInvisible | internal/records/records_deletion.go:60-99 | for any interleaving, a run with cleanups makes the same longer records as the run without them |
| RollupJobs.WindowsAreRetained | internal/records/records_deletion.go:69-75 | every window later queried on a record type lies within its retention |
| RollupJobs.LongerRecordsAreSpaced | internal/records/records.go:94-112 | over every run, 20m, 120m and 480m records of one system and collection are created at least their period less a minute apart |
| RollupEffects.LongerRecordIsMade | internal/records/records.go:94-147 | a pass makes a longer record if and only if the window holds enough shorter records of the system and collection and, but for 10m, no longer one is younger than the window less a minute; it averages exactly these records, each once and in order |
| RollupEffects.TiersAre | internal/records/records.go:43-69 | the four tiers in seconds, with their least numbers of records |
| RollupEffects.EveryPassIsMade | internal/records/records.go:85-152 | the job passes over every system, tier and collection between its start and its end, and makes no other pass |
| RollupEffects.OldRowsGo | internal/records/records_deletion.go:69-97 | a cleanup keeps exactly the rows not older than 1 hour, 12 hours, 1 day, 7 days or 30 days, depending on their type, in their order |
| RollupJobs.RecordManager.RollUpOne | internal/records/records.go:98-147 | one collection of one tier is one rollup event at the given time, which LongerRecordIsMade says in fields |
| RollupJobs.RecordManager.CreateLongerRecords | internal/records/records.go:41-155 | the job passes over every system, tier and collection in that order, as legal events |
| RollupJobs.RecordManager.DeleteOldRecords | internal/records/records_deletion.go:60-99 | deleting per collection with one disjunction over the types is one cleanup event |
| Averages.AverageColumn | internal/records/records.go:243-372 | a gauge becomes the rounded mean of its column, a byte rate the truncated mean of the wrapping sum, a peak the maximum over current values and earlier peaks |
| Averages.AverageBelowMax | internal/records/records.go:354-378 | neither rounding nor truncation lifts an average above the largest input |
| Averages.TopIsMax | internal/records/records.go:243-256 | after averaging, the peak bounds the current value |
| Averages.RoundedNearest | internal/records/records.go:504-506 | rounding is to the nearest hundredth |
| Hierarchy.PeaksSurvive | internal/records/records.go:243-256 | after any tree of rollups every peak at the root is the maximum of current and peak values over all leaves |
| Hierarchy.TruncationAnyGroups | internal/records/records.go:354-378 | for groups of any sizes a truncated root is at most the exact mean of means and less than the number of tiers below it, if the leaves' total fits 64 bits |
| Hierarchy.TruncationError | internal/records/records.go:354-378 | over k tiers of uniform groups it is at most the exact mean of the leaves and less than k below it |
| Hierarchy.RoundingAnyGroups | internal/records/records.go:340-365 | for groups of any sizes a rounded root is within half a hundredth per tier of the exact mean of means |
| Hierarchy.RoundingError | internal/records/records.go:340-365 | over k tiers of uniform groups it is within k half-hundredths of the exact mean of the leaves |
| SystemStats.AverageSystemStatsSlice | internal/records/records.go:177-442 | the loops over records, keys and cores produce the average of the records; the empty slice gives empty stats |
| SystemStats.ScalarsAverage | internal/records/records.go:200-256 | each scalar of the average in terms of its column; the battery level never exceeds the highest reading; the charge state is the last one |
| SystemStats.CoresAverage | internal/records/records.go:425-432 | one entry per core of the record with the most cores, each the rounded mean with missing cores as zero, always a byte |
| SystemStats.BreakdownAverage | internal/records/records.go:435-441 | the CPU breakdown likewise |
| SystemStats.NicsAverage | internal/records/records.go:258-269 | one entry per interface seen in any record: truncated mean rates, maximum totals |
| SystemStats.TemperaturesAverage | internal/records/records.go:272-281 | one entry per sensor seen; the mean is over the records that carry temperatures at all |
| SystemStats.FilesystemsAverage | internal/records/records.go:284-314 | one entry per filesystem seen; it is the average of the filesystem's blocks over all records, absence counting as a block of zeros |
| SystemStatsFields.ScalarMeans | internal/records/records.go:200-256 | every scalar field of the average: the rounded mean of its own column, for byte rates the truncated mean of the 64-bit sum, for peaks the largest value or earlier peak; the mean battery level, the last charge state |
| SystemStatsFields.CoreMeans | internal/records/records.go:425-432 | as many cores as the record with the most, each the rounded mean of its own readings |
| SystemStatsFields.BreakdownMeans | internal/records/records.go:435-441 | the CPU breakdown likewise |
| SystemStatsFields.NicMeans | internal/records/records.go:258-269 | exactly the interfaces of the records; up and down rates the truncated means of their own columns, totals the largest of theirs |
| SystemStatsFields.TemperatureMeans | internal/records/records.go:272-281 | exactly the sensors of the records; the sum of a sensor's readings over the number of records with temperatures, rounded half away from zero |
| SystemStatsFields.FilesystemMeans | internal/records/records.go:284-314 | exactly the filesystems of the records; each field the mean and each peak the maximum of its own column, zero where a record lacks the filesystem |
| StatsHierarchy.RecordPeaks | internal/records/records.go:243-305 | over any tree of averages, every peak of a record, and of every filesystem in it, is the maximum of current and peak values over all measured records |
| StatsHierarchy.RecordByteRates | internal/records/records.go:354-365 | every byte rate of a record, and of every filesystem in it, is at most the exact mean of means over its parts and less than the number of tiers below it |
| StatsHierarchy.RecordByteRatesUniform | internal/records/records.go:354-365 | over k tiers of uniform groups, at most the exact mean over the measured records and less than k below it |
| StatsHierarchy.RecordLevels | internal/records/records.go:366-378 | the same for both rates of every interface and for the battery level, an interface missing from a record counting as zero |
| StatsHierarchy.RecordLevelsUniform | internal/records/records.go:366-378 | over k tiers of uniform groups, at most the exact mean over the measured records and less than k below it |
| StatsHierarchy.RecordGauges | internal/records/records.go:340-365 | every rounded gauge of a record or filesystem is within half a hundredth per tier of the exact mean of means |
| StatsHierarchy.RecordGaugesUniform | internal/records/records.go:340-365 | over k tiers of uniform groups, within k half-hundredths of the exact mean over the measured records |
| SystemStats.AddRagged | internal/records/records.go:233-242 | extending and adding is pointwise addition up to the longer length |
| SystemStats.MergeAllAt | internal/records/records.go:258-311 | accumulating maps gives per key the total of its column, over exactly the keys that occur |
| ContainerStats.AverageContainerStatsSlice | internal/records/records.go:465-501 | exactly one entry per distinct name, with its mean over all the records; no records, no entries |
| ContainerStats.AddContainer | internal/records/records.go:474-489 | one container of the inner loop, the deprecated megabyte fields standing in only when both byte counts are zero |
| ContainerStats.AbsenceCountsAsZero | internal/records/records.go:491-500 | a record without a container lowers its mean as a record of zeros would |
| ContainerStats.OrderIsIrrelevant | internal/records/records.go:465-501 | averages of permuted records have the same entries |
| ContainerFields.ContainerMeans | internal/records/records.go:473-500 | each entry's sent, received, CPU and memory are the means of their own columns over all the records, megabytes standing in for a container without bytes either way |
| ContainerFields.ContainersOnce | internal/records/records.go:473-500 | there is exactly one entry for each name that occurs in any record |
| Words.MinusIsGrowth | agent/deltatracker/deltatracker.go:77-92 | the wrapping difference is the true growth of a counter, across a wrap-around too |
| DeltaTracking.DeltasTelescope | agent/deltatracker/deltatracker.go:94-100 | over any number of consecutive cycles the deltas of a key add up to the difference of the ends, modulo 2^64 always and exactly if the values never drop |
| DeltaTracking.DeltaTracker.Set | agent/deltatracker/deltatracker.go:34-38 | records one current value |
| DeltaTracking.DeltaTracker.Cycle | agent/deltatracker/deltatracker.go:95-100 | current becomes previous |
| DeltaTracking.DeltaTracker.Previous | agent/deltatracker/deltatracker.go:67-73 | the previous value, if any |
| DeltaTracking.DeltaTracker.Delta | agent/deltatracker/deltatracker.go:77-92 | the wrapping difference, 0 unless the key is in both cycles |
| DeltaTracking.DeltaTracker.Deltas | agent/deltatracker/deltatracker.go:51-64 | asking for all keys agrees with asking for each |
| NetworkLaws.KeysNeverCollide | agent/network.go:169 | up and down keys never coincide, and equal keys belong to the same interface |
| NetworkLaws.TrackAllAt | agent/network.go:161-193 | in one pass each tracked interface gets its own values and rates, independent of the others listed |
| NetworkLaws.DropNoticedIff | agent/network.go:199-216 | a drop by d makes the rate exceed the limit if and only if (-1000 d) mod 2^64 is at least (limit + 1) times the milliseconds |
| NetworkLaws.DropAlwaysNoticed | agent/network.go:199-216 | so it does whenever 1000 d + (limit + 1) ms is at most 2^64 |
| NetworkLaws.ResetIff | agent/network.go:208-235 | a sample resets if and only if a total's rate exceeds the limit, and publishes zeros then and the rates otherwise |
| NetworkLaws.RisePublishesExactly | agent/network.go:199-235 | without drop or overflow the published totals are exactly floor(1000 Δ / ms), or zeros and a reset beyond the limit |
| NetworkLaws.DropIsContained | agent/network.go:216-229 | after a drop of a total the sample publishes zero totals, and the next sample of any interval publishes only zeros and a new baseline |
| NetworkLaws.FirstSampleIsBlank | agent/network.go:140-150 | an interval's first sample publishes only zeros and stores its totals |
| NetworkTotals.TotalsHonestIff | agent/network.go:161-203 | the rise of a total is covered by every traffic that explains the two readings if and only if the counters of newly listed interfaces do not outweigh those of vanished or restarted ones |
| NetworkTotals.PublishedTotalIsReal | agent/network.go:199-235 | then the published total, sent or received, times the elapsed time is at most 1000 times the real traffic |
| NetworkTotals.PublishedSumWithinRise | agent/network.go:140-235 | over a run without reset in which an interval's total never drops, its published totals times the elapsed times sum to at most 1000 times the rise from its first to its last reading |
| NetworkTotals.PublishedSumIsReal | agent/network.go:140-235 | and to at most 1000 times the real traffic if new counters do not outweigh lost ones between these two readings |
| NetworkTotals.MissingAtFirstOverReports | agent/network.go:161-235 | from an agent's start: an idle tracked interface missing from an interval's first sample is published with its whole counter at the next |
| NetworkTotals.MissingInBetweenResets | agent/network.go:161-235 | an idle interface missing between two samples that list it makes that sample reset, and it and the next publish nothing |
| NetworkLaws.IntervalsDoNotInterfere | agent/network.go:140-234 | while nothing resets, the reports of one interval are those of the run from which all other samples are removed |
| NetworkLaws.WiresFollow | agent/network.go:175-179 | any traffic and restarts of a counter leave it either grown by the traffic or no larger than the traffic |
| NetworkLaws.NeverOverReported | agent/network.go:153-196 | over any run, with counter restarts, missed samples and resets, rate times elapsed milliseconds sums to at most 1000 times the bytes truly transferred |
| NetworkLaws.AttributedTelescopes | agent/network.go:153-196 | without reset or missed sample the bytes attributed to an interface are the difference of its last and first counters |
| NetworkLaws.RateOfAttributed | agent/network.go:172-191 | each reported rate is the attributed bytes per second, rounded down |
| NetworkEffects.NicsReported | agent/network.go:153-193 | each tracked interface of the reading is reported with its own counters and with the bytes per second since the last sample of the same interval, a counter that went down counting from zero |
| NetworkEffects.TotalsPublished | agent/network.go:199-235 | beyond 10 GB/s either way everything is forgotten and zeros are published; otherwise the speeds of the summed counters are, and time and sums become the interval's baseline |
| NetworkEffects.CountersRemembered | agent/network.go:161-170 | an interval's tracker then holds the counters of this reading, and those of its last one as the previous |
| NetworkAgent.Agent.InitializeNetIoStats | agent/network.go:93-119 | takes the found interfaces and forgets the trackers and baselines of every interval |
| NetworkAgent.Agent.LoadAndTickNetBaseline | agent/network.go:140-150 | elapsed milliseconds, 0 for an interval without baseline |
| NetworkAgent.Agent.SumAndTrackPerNicDeltas | agent/network.go:153-196 | the loop is one fold over the reading, and changes only the interval's tracker |
| NetworkAgent.Agent.ComputeBytesPerSecond | agent/network.go:199-205 | 64-bit difference and product, 0 without elapsed time |
| NetworkAgent.Agent.ApplyNetworkTotals | agent/network.go:208-235 | publishes and stores the baseline, or resets everything |
| NetworkAgent.Agent.UpdateNetworkStats | agent/network.go:79-91 | one sample is exactly one step of the model |
| DockerNetwork.IntervalsDoNotInterfere | agent/docker.go:277-346 | container speeds of one interval are those of the run without the other intervals' events; forgetting a container is an event of every interval |
| DockerAccounts.DeltaSpansOneCycle | agent/docker.go:293-346 | two readings of a container in consecutive cycles of an interval report exactly the growth between them over the time between them, whatever other containers and intervals do in between |
| DockerAccounts.ContainersNeverOverReported | agent/docker.go:303-346 | over any run in which a container is read once per cycle and each drop d of its total has 1000 d + (5e9 + 1) ms at most 2^64, its speeds times the elapsed milliseconds sum to at most 1000 times its traffic |
| DockerAccounts.SmallDropReportsNothing | agent/docker.go:318-343 | a drop within that bound reports nothing |
| DockerNetwork.DropReportsZeroIff | agent/docker.go:318-343 | a drop by d reports zero if and only if (-1000 d) mod 2^64 is implausible over the elapsed time or below one byte per second |
| DockerNetwork.RiseReportsExactly | agent/docker.go:318-343 | otherwise the exact rate, or zero beyond 5 GB/s |
| DockerEffects.ContainerRead | agent/docker.go:303-346 | the sent speed comes from the bytes transmitted on all networks and the received speed from those received, against the totals of the previous cycle, zero beyond 5 GB/s; totals and time are noted in this interval only |
| DockerEffects.CyclesAndForgets | agent/docker.go:293-300 | the end of a cycle makes an interval's totals the previous ones; forgetting a container takes its read times only |
| DockerManagement.GetNetworkTracker | agent/docker.go:277-290 | the interval's tracker, new and empty on first use |
| DockerManagement.DockerManager.CycleNetworkDeltasForCacheTime | agent/docker.go:293-300 | cycles the two trackers of the interval, if they exist |
| DockerManagement.DockerManager.CalculateNetworkStats | agent/docker.go:303-346 | reports the model's speeds and changes only the interval's trackers |
| DockerManagement.DockerManager.UpdateContainer | agent/docker.go:560-567 | a reading with its time noted is one visit event |
| DockerManagement.DockerManager.ForgetReadTimes | agent/docker.go:599-601 | forgets the container's read time in every interval |
| SystemAlertsPass.HandleSystemAlerts | internal/alerts/alerts_system.go:15-189 | the whole evaluation sends exactly what the separate per-alert rule demands; it gives up exactly if a record cannot be decoded while alerts wait |
| SystemAlertsPass.Examine | internal/alerts/alerts_system.go:25-81 | picks the alerts the current values cross, one-minute alerts at once, and finds the earliest window |
| SystemAlertsPass.FilterByTime | internal/alerts/alerts_system.go:106-112 | keeps exactly the alerts whose window starts after the oldest record |
| SystemAlertsPass.Accumulate | internal/alerts/alerts_system.go:120-160 | the nested in-place loops leave every alert with its own window's sum and count |
| SystemAlertsPass.Decide | internal/alerts/alerts_system.go:162-187 | one alert's decision from its running sum is the decision of its window |
| SystemAlertsLaws.DecisionIff | internal/alerts/alerts_system.go:174-186 | with up to 255 samples an alert flips exactly when 6 count ≥ 5 min and the mean of its window crosses the threshold against its state |
| SystemAlertsLaws.OneSidedSamplesKeepTheState | internal/alerts/alerts_system.go:174-186 | up to 255 samples, of any sign, all on the alert's own side never flip it |
| SystemAlertsLaws.OneSidedSafeIff | internal/alerts/alerts_system.go:158-186 | no table with n non-negative samples in the window, all on the alert's own side, flips it if and only if it is triggered, its threshold is not positive, n is at most 255, or 6 (n mod 256) < 5 min |
| SystemAlertsLaws.FlipsBySum | internal/alerts/alerts_system.go:174-186 | for any number of samples: an alert flips exactly when the 8-bit count suffices and the sum crosses the threshold times that count |
| SystemAlertsLaws.MeanIsTrueIff | internal/alerts/alerts_system.go:158-175 | the reported value is the window's mean if and only if at most 255 samples were counted or they sum to zero |
| SystemAlertsLaws.ManySamplesFlipWrongly | internal/alerts/alerts_system.go:158-186 | a whole table, 310 samples at 50 % within an hour, for which the evaluation triggers an alert at 60 % and reports 287 % |
| SystemAlertsLaws.WindowOfSelected | internal/alerts/alerts_system.go:88-98 | the query never cuts off a window |
| SystemAlertsLaws.KeptIff | internal/alerts/alerts_system.go:104-112 | a waiting alert is evaluated if and only if some record was created before its window and at most 90 s before the earliest window |
| SystemAlertsLaws.MoreAlertsKeepMore | internal/alerts/alerts_system.go:76-112 | more waiting alerts never keep one from being evaluated |
| SystemAlertsLaws.FiresIff | internal/alerts/alerts_system.go:15-189 | end to end, for any table: a CPU or memory alert of several minutes flips exactly if it is let in, the selected records can be decoded, and its window in the whole table demands it, with the reported value |
| SystemAlertsLaws.FiresIffDisk | internal/alerts/alerts_system.go:15-189 | the same for a disk alert, with the largest summed usage over all filesystems, readings carried over included, in place of the sum |
| SystemAlertsFields.OneMinuteAlerts | internal/alerts/alerts_system.go:25-74 | an alert over at most a minute flips if and only if its own value is on the other side of its threshold: CPU by the CPU, Memory by the memory, Disk by the disks |
| SystemAlertsFields.OtherNamesNeverSend | internal/alerts/alerts_system.go:25-54 | nothing is sent for any other name, nor for an alert whose own value is on its side |
| SystemAlertsFields.LongAlerts | internal/alerts/alerts_system.go:15-189 | a CPU or Memory alert over several minutes flips if and only if its own current value crosses, some record lies before its window but at most 90 s before the earliest, the records decode, and enough samples with the mean of their own field cross |
| SystemAlertsFields.LongDiskAlerts | internal/alerts/alerts_system.go:15-189 | a Disk alert likewise, by the filesystem with the largest summed usage |
| SystemAlertsRetention.CleanupChangesNothing | internal/records/records_deletion.go:69-97 | while the widest waiting window and the 90 seconds before it lie within the retention of the last cleanup, the cleanup does not change the evaluation |
| SystemAlertsRetention.KeptOutIff | internal/records/records_deletion.go:69-97 | a cleanup keeps out an alert that would be let in if and only if every record that would let it in is older than the retention |
| SystemAlertsRetention.LongAlertsAreKeptOut | internal/alerts/alerts_system.go:88-112 | nothing is sent for an alert whose window starts no later than the retention of the last cleanup, whatever the records say |
| SystemAlertsRetention.TwoHourAlertsNeverFire | internal/alerts/alerts_system.go:88-112 | an alert over m >= 60 minutes sends nothing up to m - 60 minutes after a cleanup, so with hourly cleanups one over 120 minutes never does |
| SystemAlertsRetention.SixtyMinuteAlertKeptOut | internal/alerts/alerts_system.go:88-112 | a table with one record a minute in which a cleanup half a minute ago keeps out a 60-minute alert |
| SystemAlertsLaws.NoticesHaveCause | internal/alerts/alerts_system.go:25-186 | every notice flips an alert of the list whose current value crosses, and reports a value that crosses too |
| SystemAlertsLaws.DiskSumsAre | internal/alerts/alerts_system.go:139-154 | what is summed per filesystem: its latest known reading at each record in the window, carried over from before if need be |
| SystemAlertsLaws.CarryOverIff | internal/alerts/alerts_system.go:118-154 | with non-negative usage the carry-over only adds, and a sum is that of the records listing the filesystem if and only if no record in the window that lacks it follows one that showed it in use |
| SystemAlertsLaws.DiskValueCoversAll | internal/alerts/alerts_system.go:164-173 | a disk alert's value is the largest of these sums, or zero |

## Left out

- StatusInvariant.StepKeepsInv: does not cover a down-to-pending write outside the guard, because the code leaves timers running there; PendingWriteIff says exactly when such a write is harmless.
- RequestInvariant.ClosedAtMostOnce: does not promise that a delivered message is closed at all; a receiver that leaves because its context is done can abandon one in its channel.
- RequestManagement.RequestManager.HandleResponse: the object handles one response with nothing in between; the interleavings are those of RequestProtocol, whose events the object's single critical sections are proved to be.
- SystemStats.AverageSystemStatsSlice: does not model GPU maps and their engines, whose fields are rounded means like those of filesystems; nil and empty slices, and nil and empty interface maps, are one.
- ContainerStats.AverageContainerStatsSlice: megabyte fields are hundredths whose byte value fits 64 bits; the code's conversion of larger or negative floats is not defined by its language.
- SystemAlertsPass.HandleSystemAlerts: the current disk usage is a parameter (the highest percentage over root and extra filesystems), and an unbounded quotient of a filesystem of size zero is not modelled; the descriptor text of a disk alert is left out; sums of disk percentages are exact instead of 32-bit.
- NetworkLaws.NeverOverReported: is about each interface; the published totals do not have this property, and NetworkTotals.TotalsHonestIff says when they do.
- NetworkAgent.Agent.InitializeNetIoStats: which interfaces are selected (name patterns, zero counters) is a parameter.
- The race inside one callback between a firing timer and a recovering system: callbacks are atomic.
- WebSocket, HTTP, CBOR and JSON encoding, SQL, PocketBase storage and Telegram: tables, readings and messages are parameters, notices are recorded in a log.
- The hook's threshold evaluation inside a status write is modelled apart from it; within the status protocol a threshold alert's flag changes by an event of its own.
- resolveStatusAlerts, which nothing calls, and Stop.
- Deletion of alert history, systemd services, containers and quiet hours: single statements.
- The realtime worker, the agent's connection manager, response cache, disk, sensor, battery, CPU and SMART code, and the web interface.
- Failing saves, failing queries and transactions that roll back.
