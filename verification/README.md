# CalBridgeSync: a verified model of its synchronisation core

CalBridgeSync copies CalDAV calendars from a source server to a destination server, in one or both directions, run by a
background scheduler. This project models the parts that decide what happens to a user's events, as Dafny programs with
the code's own branches, loops and counters, and proves what they guarantee over whole runs.

`dafny verify dfyconfig.toml` checks everything.

## How it is built

- `CalendarData` holds events, calendar stores and the CalDAV client's put, delete and listing. `RecordTable` is the
  `synced_events` table of one source calendar. What servers, database and clocks answer is passed in as parameters, so a
  theorem that names no condition on an answer holds for every answer.
- `Reconcile` states each phase of `fullSync` as a function of the two collections, the records and the answers.
  `FullSync` is the imperative form: the maps of a run are fields, the loops over Go maps pick their next key freely, and
  every phase is proved equal to its function. `EventWindow` is the date filter.
- Facts about runs: `DeletionPhase` (map-order independence), `PushPhase` (creations, counters), `RunCounters` (what the
  counters count), `DuplicateCleanup`, `DedupeKeys` (which events share a key, and what follows), `ResourceNames`,
  `RunFacts` (what one run does to the source and to the records), `RecordKeeping` (when a record is dropped), `History`
  (provenance over runs and user edits), `TwoWayRemoval`, `TwoWayContents`, `Isolation`, `AgeingOut`, `Convergence`, `OneRun` (exactly when a single run
  converges), and `Counterexamples` (what does not hold, and why the conditions are needed). `SourceSync` is the loop over
  the calendars of a source.
- `Scheduler` is the job scheduler as a step system beside a class with its methods; `SchedulerSafety` and
  `SchedulerRuns` prove its invariant and the theorems about runs, `SchedulerProgress` that jobs are served and ticks lead
  to syncs.
- `Notifier`, `DeltaSync`, `XmlEscape`, `BatchedFetch` and `ActivityLog` cover the alerts, the WebDAV-Sync path, token
  escaping, batched fetching and the activity tracker.

## Where the code differs from what one would expect

The model follows the code. These behaviours shape the theorems:

- The push loop walks the fetched list, so an event just deleted from the source is pushed once more and leaves the
  destination one run later (`TwoWayRemoval.FirstRunAfterDestRemoval`).
- The dedupe keys come from the first listing only. A source event can be skipped for a look-alike that the same run then
  deletes: one run is not enough (`Counterexamples.LookAlikeEmptiesTheDestination`), two are (`Convergence.TwoRunsSuffice`),
  and `OneRun.OneRunSufficesIff` says exactly when one is.
- Convergence and isolation rest on the server refusing to store a put over a resource that has another UID (the
  no-uid-conflict precondition of section 5.3.2.1 of RFC 4791). A name that another event has therefore keeps an event out
  for good (`Counterexamples.TakenNameBlocksForever`).
- Under `dest_wins` a two-way run exchanges the two contents. Under the other two strategies, which are the same there, the
  contents of events with differing tags come to agree (`TwoWayContents.ContentsAgreeIff`,
  `TwoWayContents.LatestWinsIsSourceWins`). One-way, only `source_wins` deletes orphans (`TwoWayContents.OnlySourceWinsSweeps`).
- The "is in the future" test of the date filter adds nothing (`EventWindow.FilterEventsByDate`).
- `RemoveJob` drops the source's lock while a sync may hold it; `SchedulerRuns.RemovalOpensOverlapIff` says exactly when that
  lets a second sync in.
- Delta sync stores the new token whatever became of the puts, so a lost item stays lost (`DeltaSync.LostStaysLost`). A
  member whose href is not under the destination calendar is written elsewhere, so it is not mirrored
  (`DeltaSync.MirroredIffWritten`).
- A sync token with a carriage return or a forbidden character does not reach the server as it is
  (`XmlEscape.RequestCarriesTokenIff`).
- The removed duplicates of the calendars are not added to a source's totals, and a finished sync is never recorded as
  "partial" in the tracker, because a sync succeeds only when it has no errors (`SourceSync.SyncSource`). A sync that fails
  before its calendars are known leaves no trace in the tracker.

## Model

| member | source | states |
|---|---|---|
| `CalendarData.CalendarClient.PutEvent` | internal/caldav/client.go:573-617 | The new collection outright: nothing is written for empty data, a refused put, or an event from elsewhere without a UID in it or in its data; otherwise the event is stored with the new tag, at its own path when that lies under the calendar and else at the calendar's folder, the UID and `.ics` |
| `CalendarData.CalendarClient.DeleteEvent` | internal/caldav/client.go:620-626 | A successful delete removes exactly that path, a failed one nothing |
| `CalendarData.CalendarClient.GetEvents` | internal/caldav/client.go:182-197 | A listing shows every stored event once, in some order, except the paths that were dropped on the way |
| `CalendarData.FailedPutChangesNothing` | internal/caldav/client.go:573-617 | A put that is not reported done leaves the collection as it was |
| `ResourceNames.UidIsReadBack` | internal/caldav/client.go:600-603 | The built path is the calendar's path, one slash, the UID and `.ics`, and the UID can be read back from it |
| `ResourceNames.PutLandsInFolder` | internal/caldav/client.go:588-611 | A stored put of an event from elsewhere lands there, under the UID in the event or else in its data |
| `ResourceNames.TwoPutsStand` | internal/caldav/client.go:588-611 | Two events with different UIDs from elsewhere are both in the collection afterwards, under different paths |
| `ResourceNames.EmbeddedNamesAlike` | internal/caldav/client.go:590-599 | A UID found in the data names the resource as the same UID in the event does |
| `ResourceNames.PutStaysInPlace` | internal/caldav/client.go:584-588 | An event whose path lies under the calendar is stored at that path |
| `RunFacts.OutcomeMeans` | internal/caldav/client.go:574-616 | For an event with a UID: done when there is nothing to write or it was stored, and otherwise the server's kind of refusal |
| `RunFacts.DoneMeansStored` | internal/caldav/client.go:574-616 | For an event with a UID, a put is reported done exactly when its data is empty or the server stored it |
| `RecordTable.SyncedEvents.GetSyncedEvents` | internal/db/queries.go:549-578 | The rows of one source calendar, or nothing when the query fails |
| `RecordTable.SyncedEvents.UpsertSyncedEvent` | internal/db/queries.go:581-618 | The row of the UID, new or old, gets the current time as its update time; the others stay |
| `RecordTable.SyncedEvents.DeleteSyncedEvent` | internal/db/queries.go:621-630 | The row of the UID goes, the others stay |
| `EventWindow.FilterEventsByDate` | internal/caldav/sync.go:344-385 | An event with an empty start, or one that no layout reads, is kept for every cutoff and clock; any other is kept if and only if its first reading is after the cutoff; the test against the present time is redundant |
| `EventWindow.WindowShrinks` | internal/caldav/sync.go:344-385 | Filtering at a later cutoff is the same as filtering again: the window only shrinks and keeps its order |
| `EventWindow.WindowAppends` | internal/caldav/sync.go:344-385 | The filter judges each event by itself and keeps their order |
| `FullSync.SyncRun.BuildMap` | internal/caldav/sync.go:502-515 | The UID map of a listing: events without UID are left out, a later event replaces an earlier one |
| `RecordKeeping.MapHasTheLast` | internal/caldav/sync.go:502-515 | Of several listed events with one UID the map has the last |
| `FullSync.SyncRun.BuildKeys` | internal/caldav/sync.go:517-525 | The non-blank dedupe keys of the destination listing |
| `FullSync.SyncRun.HandleDeletions` | internal/caldav/sync.go:548-602 | The deletion loop, whichever record it visits next, has the effect of the decision table on both servers, the records, the maps and the counters |
| `FullSync.SyncRun.VisitRecord` | internal/caldav/sync.go:549-601 | One turn of the deletion loop: who loses the event by (on source, on destination, recent), the record dropped even when the delete fails |
| `FullSync.SyncRun.PushEvents` | internal/caldav/sync.go:605-655 | The push loop refines the push function for any source list and any failures |
| `FullSync.SyncRun.PushEventsBack` | internal/caldav/sync.go:666-716 | The push-back loop refines its function: only differing tags under `dest_wins` write, refused writes are not warnings |
| `FullSync.SyncRun.DeleteOrphans` | internal/caldav/sync.go:719-728 | The orphan loop deletes, in any order, exactly the leftover events whose delete succeeds |
| `FullSync.SyncRun.GroupByKey` | internal/caldav/sync.go:770-781 | Every non-blank key gets its events in listing order; blank keys get no group |
| `FullSync.SyncRun.ChooseKeeper` | internal/caldav/sync.go:796-802 | The first event of the group whose UID is on the source, otherwise the first of all |
| `FullSync.SyncRun.RemoveDuplicates` | internal/caldav/sync.go:786-821 | The clean-up loop, in any order of groups, removes exactly the non-keepers whose delete succeeds and counts them |
| `FullSync.SyncRun.UpdateRecords` | internal/caldav/sync.go:738-747 | Every UID tracked in this run gets a fresh stamp unless its write fails, in any order |
| `FullSync.SyncRun.Fetch` | internal/caldav/sync.go:415-434 | A fetched listing is complete but for dropped events and those before the cutoff |
| `FullSync.SyncRun.Synchronise` | internal/caldav/sync.go:387-750 | A whole imperative run equals the composed phases of the specification on stores, records, maps and counters; it fails, and changes nothing, exactly when the source listing fails |
| `DeletionPhase.AnyOrderGivesTheTable` | internal/caldav/sync.go:548-602 | Visiting any records in any order gives the decision table: stores, records, maps and counters depend on the set of records alone |
| `DeletionPhase.TableGrowsByOne` | internal/caldav/sync.go:549-601 | One more record changes the table's outcome exactly as one turn of the loop does |
| `RecordKeeping.RecordIsDroppedIff` | internal/caldav/sync.go:540-600 | Over the listings: a record is gone after the deletion phase if and only if the mode is two-way, the records were read, some UID is listed on the destination, the row can be deleted, and no source event has the UID, or no destination event has it and the record is old; whether or not the server deletes succeed. A record that stays keeps its time |
| `RecordKeeping.DroppedStaysDropped` | internal/caldav/sync.go:737-747 | A dropped record is not there after the run either, unless the run vouches for the UID anew |
| `RecordKeeping.NoRecordNoDeletion` | internal/caldav/sync.go:549-592 | No run deletes a source event without a record |
| `RecordKeeping.RestoredEventIsKept` | internal/caldav/sync.go:594-600 | An event gone from both sides loses its record, so that when it is later put back on the source the next run does not delete it there |
| `DeletionPhase.OrphansGrowByOne` | internal/caldav/sync.go:720-727 | The orphan loop's effect on a set of UIDs grows by one turn of the loop, whichever UID comes next |
| `DeletionPhase.RemovalsGrowByOne` | internal/caldav/sync.go:805-817 | The clean-up's effect on a set of paths grows by one delete, whichever comes next |
| `DeletionPhase.StampsGrowByOne` | internal/caldav/sync.go:738-747 | The record update's effect on a set of UIDs grows by one write, whichever comes next |
| `PushPhase.PushAccounts` | internal/caldav/sync.go:605-655 | After any number of iterations each counter has grown by the number of events of its kind, and every event with a UID is processed exactly once |
| `PushPhase.KindsAddUp` | internal/caldav/sync.go:605-655 | The kinds of the first events add up to the events with a UID |
| `PushPhase.KindIs` | internal/caldav/sync.go:606-653 | The kinds in terms of the call: listed with equal tag, listed with another tag, known key, or new; done when the put is stored or has nothing to write |
| `PushPhase.RunAccounts` | internal/caldav/sync.go:605-655 | For a whole run: processed = source events with a UID = created + skipped + pushed updates + unchanged + failed puts |
| `RunCounters.DeletionIsCounted` | internal/caldav/sync.go:548-602 | The deletion phase counts as deleted exactly the resources that left the two calendars, and warns once for every delete it asked for in vain |
| `RunCounters.PushBackIsCounted` | internal/caldav/sync.go:666-716 | The push-back counts as updated what is written back under `dest_wins` with differing tags, and warns only for refusals other than "exists" and "forbidden" |
| `RunCounters.OrphansAreCounted` | internal/caldav/sync.go:719-728 | The orphan loop counts exactly the resources that left the destination, and warns for the others |
| `RunCounters.CleanupIsCounted` | internal/caldav/sync.go:731-735 | The removed duplicates are exactly the resources that left the destination in the clean-up |
| `RunCounters.RunIsCounted` | internal/caldav/sync.go:387-750 | For a whole run: deleted, updated, warnings and duplicates removed are the sums of these |
| `PushPhase.CreationsAreDistinct` | internal/caldav/sync.go:517-525 | Created events with a non-blank key have pairwise different keys, none of them in the destination listing, for any list and any failures |
| `DuplicateCleanup.OneSurvivorPerKey` | internal/caldav/sync.go:783-818 | With successful deletes exactly one event of every non-blank key is left, and it is the keeper of its group |
| `DuplicateCleanup.KeeperIsFirst` | internal/caldav/sync.go:793-802 | The keeper is the first listed event of its key with a UID on the source, if any has one, otherwise the first listed |
| `DuplicateCleanup.BlankKeysStay` | internal/caldav/sync.go:772-776 | An event with neither summary nor start is never removed |
| `DuplicateCleanup.KeepersAreSafe` | internal/caldav/sync.go:804-817 | The keeper survives, whatever fails |
| `DuplicateCleanup.SecondPassIsIdle` | internal/caldav/sync.go:755-822 | After a pass without failures a second pass finds nothing to remove |
| `DuplicateCleanup.RemovedIsExcess` | internal/caldav/sync.go:783-821 | The number of events to remove is the sum over the groups of size minus one: the events with a key of the listing, less the number of keys |
| `DuplicateCleanup.RemovedPlusRemaining` | internal/caldav/sync.go:804-821 | With failures, removed plus remaining is the original number |
| `DuplicateCleanup.DoomedGrows` | internal/caldav/sync.go:786-818 | Handling one more group dooms its events but the keeper, and nothing that was handled before |
| `DedupeKeys.SharedKeyIff` | internal/caldav/client.go:55-58 | For starts without a bar, two events share a key if and only if they have the same summary and the same start |
| `DedupeKeys.KeysCanCollide` | internal/caldav/client.go:55-58 | With a bar in a start they can share a key although they differ |
| `DedupeKeys.BlankKeyIff` | internal/caldav/client.go:55-58 | The key is blank if and only if summary and start are both empty |
| `DedupeKeys.UniqueIsNeverRemoved` | internal/caldav/sync.go:770-818 | An event whose summary and start no other listed event has is never removed by the clean-up, whatever fails |
| `DedupeKeys.RepeatedIsRemoved` | internal/caldav/sync.go:770-818 | Without failures two listed events with the same summary and start, not both empty, do not both stay |
| `DedupeKeys.UniqueSurvivesRun` | internal/caldav/sync.go:731-735 | In a run, such a unique event is still on the destination after the clean-up, unchanged |
| `DedupeKeys.KnownKeys` | internal/caldav/sync.go:517-525 | The keys known to the push loop are those of the destination listing and of the events created so far |
| `DedupeKeys.SkippedIff` | internal/caldav/sync.go:610-622 | A source event is skipped if and only if its UID is not left on the destination, it has a summary or a start, and a listed destination event or a source event created earlier has the same ones |
| `RunFacts.SourceFate` | internal/caldav/sync.go:548-716 | A one-way run leaves the source untouched, no run in any mode adds a UID to it, and only the deletion phase removes a path |
| `RunFacts.SourceDeletionIsGuarded` | internal/caldav/sync.go:535-597 | A path leaves the source only in two-way mode, when the destination shows some UID but not this one, and for a record at least one sync interval old |
| `RunFacts.TrackedIsVouched` | internal/caldav/sync.go:605-653 | The UIDs tracked for the record table are exactly those of source events that the run created or updated with success, or found with equal tags |
| `RunFacts.VouchedAtIff` | internal/caldav/sync.go:605-653 | In terms of the calls: the event was put, and the put was stored or had nothing to write; or it was not put because the listed resource with its UID has the same tag |
| `RunFacts.RecordsFate` | internal/caldav/sync.go:738-747 | A record after a run is an old one or was stamped in this run for a tracked UID, and every tracked UID is stamped unless that write fails |
| `RunFacts.StoresStayValid` | internal/caldav/sync.go:548-727 | Every event stays filed under its own path through all phases |
| `History.RecordsHaveAnOrigin` | internal/caldav/sync.go:737-747 | Over every history of runs and user edits from an empty table, each record stems from an earlier run that, from the state it met, created or updated the event with success or found equal tags, and stamped it with that time |
| `History.SourceDeletionHasAnOrigin` | internal/caldav/sync.go:535-602 | Over every history, a source event is deleted only in two-way mode, only while the destination lists some UID but not this one, and only after an earlier run, at least one interval ago, saw it on the source and put it with success or found equal tags |
| `History.NothingListedNothingDeleted` | internal/caldav/sync.go:540-548 | A run whose destination listing failed or has no UID deletes nothing on the source, and neither does a one-way run |
| `TwoWayRemoval.RunKeepsGone` | internal/caldav/sync.go:387-750 | Under any configuration and any failures a run brings back no UID that is absent from both calendars |
| `TwoWayRemoval.NeverReappears` | internal/caldav/sync.go:387-750 | Over any sequence of runs, a UID once gone from both calendars stays gone |
| `TwoWayRemoval.RemovedOnSource` | internal/caldav/sync.go:553-568 | A tracked event removed from the source is gone from both sides after one two-way run |
| `TwoWayRemoval.FirstRunAfterDestRemoval` | internal/caldav/sync.go:571-612 | After a removal on the destination, one run takes the event off the source; the destination may get it once more, but only with a record |
| `TwoWayRemoval.RemovedOnDest` | internal/caldav/sync.go:571-655 | A tracked event removed from the destination, with an old enough record and some UID still listed there, is gone from both sides after two runs |
| `Isolation.StrangerReachesCleanupIff` | internal/caldav/sync.go:548-728 | Whatever the server answers, a destination event that is neither on this source calendar nor in its records keeps its path and data through deletion, push, push-back and orphan phase of a two-way run if and only if no put of the run is stored at its path |
| `Isolation.StrangerReachesCleanup` | internal/caldav/sync.go:548-728 | It always does with a server that stores no put over a resource with another UID |
| `Isolation.StrangersSurvive` | internal/caldav/sync.go:755-822 | With such a server it also survives the clean-up, unless that finds another event with its non-blank key and keeps that one |
| `AgeingOut.AgeingDeletesOnlyBetweenCutoffs` | internal/caldav/sync.go:424-602 | For an event on both sides with equal starts, seen through the windows of a run, the deletion phase never takes it off the destination, and takes it off the source if and only if deletion is enabled, its record is old, the delete succeeds, and the start lies after the source cutoff and not after the destination cutoff; with equal cutoffs it leaves neither side |
| `Convergence.FirstRun` | internal/caldav/sync.go:604-735 | From any destination whose resources have UIDs, with a server that stores no put over a resource with another UID, one undisturbed one-way `source_wins` run leaves only copies of source events, at most one per non-blank key, none with a blank key missing |
| `Convergence.SecondRun` | internal/caldav/sync.go:604-735 | A run that starts from such copies ends with every source key present |
| `Convergence.TwoRunsSuffice` | internal/caldav/sync.go:387-750 | From any such destination, after two undisturbed runs it holds exactly one source event per non-blank key and every source event with a blank key, with the source's data; and the same after every later run |
| `Convergence.LaterRun` | internal/caldav/sync.go:604-735 | A run that starts in step creates, deletes and de-duplicates nothing and keeps every resource with its content |
| `Convergence.LaterRunsAreIdle` | internal/caldav/sync.go:387-750 | Every run from the third on creates, deletes and de-duplicates nothing |
| `Convergence.NothingToCreate` | internal/caldav/sync.go:608-622 | In step, no iteration of the push loop creates |
| `OneRun.OneRunSufficesIff` | internal/caldav/sync.go:604-735 | One undisturbed run brings the destination in step if and only if no key of a source event is shadowed: present on the destination while no source event with that key is there under its own UID |
| `OneRun.KeyArrives` | internal/caldav/sync.go:610-653 | A key that is not shadowed is on the destination before the clean-up |
| `OneRun.ShadowedIsLost` | internal/caldav/sync.go:614-622 | A shadowed key is missing from the destination after the run |
| `Counterexamples.LookAlikeEmptiesTheDestination` | internal/caldav/sync.go:614-622 | One run is not enough: for every source event with a look-alike on the destination, the run skips it and deletes the look-alike, so the destination ends up empty |
| `TwoWayContents.ContentsAfterRun` | internal/caldav/sync.go:604-716 | For any two calendars and any UID both hold, after a two-way run and before the clean-up: with differing tags the destination has the source's content, and the source keeps its own, except under `dest_wins`, where it gets the destination's, so that the two are exchanged; with equal tags both stay |
| `TwoWayContents.ContentsAgreeIff` | internal/caldav/sync.go:693-710 | The two contents then agree if and only if they did before, or the tags differed and the strategy is not `dest_wins` |
| `TwoWayContents.LatestWinsIsSourceWins` | internal/caldav/sync.go:693-710 | In two-way mode a run under `latest_wins` is the same as under `source_wins`, in stores, records, maps and counters |
| `TwoWayContents.OnlySourceWinsSweeps` | internal/caldav/sync.go:718-728 | In one-way mode under any other strategy than `source_wins` no path leaves the destination before the clean-up |
| `Counterexamples.TakenNameBlocks` | internal/caldav/client.go:588-605 | An event that would be created under a name another event has does not arrive: after any one-way run, whatever fails, the resource, if it is still there, holds the same UID and the event is missing |
| `Counterexamples.TakenNameBlocksForever` | internal/caldav/client.go:588-605 | The same over any number of runs, so that success of the puts cannot be dropped from the convergence theorem |
| `SourceSync.GetSyncDirectionForCalendar` | internal/caldav/sync.go:36-45 | The first selected calendar with the path decides, by its own direction or else the source's; an unselected calendar follows the source |
| `SourceSync.SelectCalendars` | internal/caldav/sync.go:214-230 | With a selection the discovered calendars on it, in discovery order; without one all of them |
| `SourceSync.ChosenAreSelected` | internal/caldav/sync.go:221-226 | The chosen calendars are exactly those discovered and selected |
| `SourceSync.VisitedIff` | internal/caldav/sync.go:214-230 | A discovered calendar is visited if and only if nothing is selected or it is selected |
| `SourceSync.ChosenAppends` | internal/caldav/sync.go:221-226 | The calendars are judged one by one and keep their order |
| `SourceSync.NoErrorsInTotal` | internal/caldav/sync.go:245-255 | The source's error list is empty exactly when every calendar's is |
| `SourceSync.SyncSource` | internal/caldav/sync.go:128-270 | The result is the sum over the visited calendars; the tracker gains exactly one finished entry, completed when no calendar reported an error and else an error, with these totals and the number of calendars; none when the sync fails before its calendars are known and was not being tracked |
| `SourceSync.TotalsCountEvents` | internal/caldav/sync.go:236-255 | When each calendar reports what its run counted: processed are the source events with a UID over the visited calendars, each of them created, skipped, updated, unchanged or failed; updates, deletions, warnings and errors are the calendars' sums; and the sync succeeds exactly when every calendar could be listed |
| `Scheduler.JobScheduler.AddJobWithDelay` | internal/scheduler/scheduler.go:166-192 | One critical section: an existing job of the source is told to stop, a new one is registered and its loop started, delayed when the delay is positive |
| `Scheduler.JobScheduler.AddJob` | internal/scheduler/scheduler.go:135-162 | The same with a loop that syncs at once |
| `Scheduler.JobScheduler.TriggerSync` | internal/scheduler/scheduler.go:249-255 | A one-off goroutine that is about to sync; jobs and locks stay |
| `Scheduler.JobScheduler.TryToSync` | internal/scheduler/scheduler.go:362-371 | The sync is entered exactly when the lock was free, which is then held; otherwise it is skipped |
| `Scheduler.JobScheduler.EndSync` | internal/scheduler/scheduler.go:371 | The lock is free again, and the goroutine is back in its select or done |
| `Scheduler.JobScheduler.RemoveJob` | internal/scheduler/scheduler.go:195-211 | A registered job is told to stop and unregistered, and the source's lock is dropped; with or without a job the notifier, if there is one, forgets the source |
| `Scheduler.JobScheduler.UpdateJobInterval` | internal/scheduler/scheduler.go:214-246 | The job is replaced by one whose loop is started after the critical section and waits for its first tick |
| `Scheduler.JobScheduler.GetSyncLock` | internal/scheduler/scheduler.go:348-359 | The source's lock from the table, made on first use |
| `Scheduler.JobScheduler.CloseAllJobs` | internal/scheduler/scheduler.go:119-127 | Stopping closes every registered job, in any order, and empties the table |
| `Scheduler.CloseOneMore` | internal/scheduler/scheduler.go:121-124 | Closing a set of jobs grows by closing one, whichever comes next |
| `SchedulerSafety.StepKeepsInvariant` | internal/scheduler/scheduler.go:107-413 | Every step of every goroutine keeps the invariant on jobs, loops, locks and lock counts |
| `SchedulerSafety.AlwaysGood` | internal/scheduler/scheduler.go:107-413 | Every reachable state satisfies it |
| `SchedulerSafety.JobsAreExact` | internal/scheduler/scheduler.go:107-246 | In every reachable state no channel was closed twice, the open stop channels are exactly those of the registered jobs, which are the ones that tick, each source has at most one live job, no job has two loops, and every loop is registered or told to stop |
| `SchedulerSafety.SyncsAreBounded` | internal/scheduler/scheduler.go:347-371 | The number of goroutines inside a sync of a source is at most one plus the number of times its lock was dropped |
| `SchedulerSafety.DroppedCounts` | internal/scheduler/scheduler.go:199-204 | That number grows exactly with the `RemoveJob` steps of the source that found a job and a lock |
| `SchedulerRuns.TableLockAlways` | internal/scheduler/scheduler.go:348-371 | While no removal drops the source's lock in the middle of its use, every goroutine of the source that uses a lock uses the one in the table |
| `SchedulerRuns.OneSyncAtATime` | internal/scheduler/scheduler.go:362-371 | Then at most one sync of the source runs at a time |
| `SchedulerRuns.OverlapIff` | internal/scheduler/scheduler.go:195-371 | From every state that keeps the invariant, and without a further lock being dropped, two syncs of the source can come to run at once if and only if some goroutine uses a lock of the source that is not the one in the table |
| `SchedulerRuns.RemovalOpensOverlapIff` | internal/scheduler/scheduler.go:195-204 | `RemoveJob` on a registered source opens the way to two syncs at once if and only if one of its goroutines is between fetching and releasing a lock |
| `SchedulerRuns.StoppedLoopRunsOut` | internal/scheduler/scheduler.go:265-335 | Once a loop is told to stop, the syncs it starts use up a measure made of its stage and a waiting tick, whatever the other goroutines do |
| `SchedulerRuns.StoppedLoopEnds` | internal/scheduler/scheduler.go:265-335 | It starts at most two more syncs, at most one once past its first, and with the measure used up it can only exit |
| `SchedulerProgress.WorkerSteps` | internal/scheduler/scheduler.go:265-335 | What any step does to any goroutine: it keeps its identity, a loop leaves only by its own exit, a one-off goroutine never waits, and what it owes is settled by starting a sync, taking a tick or leaving during its delay |
| `SchedulerProgress.NewWorkers` | internal/scheduler/scheduler.go:135-255 | AddJob starts a loop that syncs first or after its delay, a spawn for UpdateInterval one that waits for a tick, TriggerSync a one-off goroutine; no other step starts any |
| `SchedulerProgress.StepOnJob` | internal/scheduler/scheduler.go:107-335 | A closed channel stays closed; a tick is waiting only if it was or has just come, and is gone when taken |
| `SchedulerProgress.StepOnWaiting` | internal/scheduler/scheduler.go:135-246 | Only AddJob and UpdateInterval make jobs, ticking and with no tick waiting, and only the latter leaves its job to be spawned |
| `SchedulerProgress.StepKeepsServed` | internal/scheduler/scheduler.go:107-335 | Every step keeps the next property |
| `SchedulerProgress.JobsAreServed` | internal/scheduler/scheduler.go:107-335 | In every reachable state that is not cancelled, every job with an open channel waits to be spawned or has a loop that has not left |
| `SchedulerProgress.StartsAreOwed` | internal/scheduler/scheduler.go:265-335 | Over every history, the syncs a goroutine started, plus the one it owes or gave up by leaving during its delay, are the ticks it took, plus one if it came from AddJob or TriggerSync and none if from UpdateInterval |
| `SchedulerProgress.TakesAreTicks` | internal/scheduler/scheduler.go:265-335 | Over every history, a job's loops take at most as many ticks as came, one less while one waits |
| `SchedulerProgress.NewLoopArrives` | internal/scheduler/scheduler.go:265-318 | With the lock free or absent, a new loop reaches its sync by its own steps, after its delay if it has one |
| `SchedulerProgress.TickArrives` | internal/scheduler/scheduler.go:271-281 | So does a selecting loop with a waiting tick; and in its select on an open job it does so after the next tick |
| `SchedulerProgress.BusyIsSkipped` | internal/scheduler/scheduler.go:366-370 | With the lock held the sync is skipped, and a loop is back in its select |
| `SchedulerProgress.RemovedIsStopped` | internal/scheduler/scheduler.go:195-204 | After RemoveJob the source has no job, no ticking or open one among all it ever had, and no lock if it had a job; the others' jobs are untouched |
| `SchedulerProgress.ReplacedIsStopped` | internal/scheduler/scheduler.go:135-238 | AddJob and UpdateInterval stop the old job and register a new one in its place; the others' jobs are untouched |
| `SchedulerProgress.StopTellsEveryone` | internal/scheduler/scheduler.go:108-127 | After cancelling and closing, no job is registered or ticks, and every loop in its delay or select can leave |
| `Notifier.CooldownPeriod` | internal/notify/notify.go:545-550 | The user's minutes, negative ones included: exact in the range of a 64-bit duration, otherwise the 64-bit value congruent to the product; the configured period when there are none |
| `Notifier.AlertSender.SendStaleAlert` | internal/notify/notify.go:208-237 | Sends unless the source is stale and alerted less than the configured cooldown ago, and then records the time |
| `Notifier.AlertSender.SendStaleAlertWithPrefs` | internal/notify/notify.go:482-513 | The same with the user's cooldown |
| `Notifier.AlertSender.SendRecoveryAlert` | internal/notify/notify.go:241-266 | Sends exactly when the source is stale, and forgets it |
| `Notifier.AlertSender.ClearStaleState` | internal/notify/notify.go:459-464 | Forgets the source, and no other |
| `Notifier.RecoveryFollowsAlert` | internal/notify/notify.go:517-542 | In every call sequence a recovery is sent exactly when a stale alert was sent since the last recovery or clear |
| `Notifier.WithheldInCooldown` | internal/notify/notify.go:482-497 | A stale alert is withheld exactly when the latest one, not followed by a recovery or clear, is less than the cooldown ago |
| `Notifier.MemoryIsPending` | internal/notify/notify.go:208-266 | What the notifier remembers of a source is the time of its latest alert that no recovery or clear has followed |
| `Notifier.AlertsAreBounded` | internal/notify/notify.go:482-513 | With a monotone clock and cooldowns at least C, in a span T a source gets at most T / C + 1 stale alerts plus one per recovery sent or clear of a stale source |
| `DeltaSync.ParseSyncResponse` | internal/caldav/webdavsync.go:129-160 | A response with 404 in its status is a deletion, one without it and with 200 in its propstat a change, any other is ignored, in order |
| `DeltaSync.ResponsesAreJudged` | internal/caldav/webdavsync.go:141-157 | Every response is judged by itself, in order: gone with a 404 in its status, changed without one and with a 200 in its propstat, otherwise passed over |
| `DeltaSync.ContainsIff` | internal/caldav/webdavsync.go:143-149 | The test for a code means that the status is some text, the code and some text |
| `DeltaSync.ParsingRecoversReports` | internal/caldav/webdavsync.go:141-157 | Reports of present and gone members, sent as section 3.4 of RFC 6578 has it, come out as exactly those changes and deletions |
| `DeltaSync.DeltaRun.Apply` | internal/caldav/sync.go:294-333 | Changes are put, then deletions made; every item with data is an update or a warning; the token is kept whatever failed |
| `DeltaSync.PutsAreCounted` | internal/caldav/sync.go:297-309 | Updates are the items of readable data whose put was stored, or that have no UID to name them |
| `DeltaSync.ItemsAreCounted` | internal/caldav/sync.go:297-309 | Updates and warnings together are the items with data |
| `DeltaSync.RemovalsAreCounted` | internal/caldav/sync.go:312-320 | Deletions are the deletes that succeeded |
| `DeltaSync.LastPutCounts` | internal/caldav/sync.go:297-310 | Of several puts to one path the last that is stored counts, whatever was sent |
| `DeltaSync.DeletionsComeLast` | internal/caldav/sync.go:312-320 | A path whose deletion succeeds is gone, even if it was also sent as changed; any other is as the puts left it |
| `DeltaSync.RoundAt` | internal/caldav/sync.go:297-320 | A member whose own calls succeed is as on the source after the round if it was reported, and untouched if not |
| `DeltaSync.MemberStaysMirrored` | internal/caldav/sync.go:294-333 | Over any number of rounds with a conforming server, a member whose own calls succeed stays mirrored, whatever happens to the others and however often the token is not stored |
| `DeltaSync.MirrorIsKept` | internal/caldav/sync.go:294-333 | When all calls succeed, hrefs lie under the destination calendar and data is not empty, the destination equals the source as a path-to-data map after every round |
| `DeltaSync.MirroredIffWritten` | internal/caldav/client.go:573-617 | A changed member is right after the round if and only if its data is not empty, its put was stored and its href lies under the destination calendar |
| `DeltaSync.LostStaysLost` | internal/caldav/sync.go:322-330 | A member once lost stays lost over any number of rounds that do not mention it |
| `XmlEscape.EscapeIsOnePass` | internal/caldav/webdavsync.go:162-169 | The five whole-string replacements equal one pass over the characters, for every string |
| `XmlEscape.EscapedIsClean` | internal/caldav/webdavsync.go:162-169 | The output has no raw angle bracket or quote, and every ampersand starts one of the five predefined entities |
| `XmlEscape.DecodeEscaped` | internal/caldav/webdavsync.go:162-169 | Replacing the entities in the output gives back the input, for every string |
| `XmlEscape.TextIsReadIff` | internal/caldav/webdavsync.go:162-169 | An XML reader, which normalises line ends and rejects forbidden characters, gets the input back from the output if and only if that has no carriage return and only allowed characters |
| `XmlEscape.RequestCarriesTokenIff` | internal/caldav/webdavsync.go:110-127 | From the request body such a reader gets back exactly the token that was put in, empty or not, if and only if the same holds of the token |
| `BatchedFetch.MalformedEventCollector.Add` | internal/caldav/client.go:79-84 | The collector grows by exactly that entry |
| `BatchedFetch.FetchClient.GetEventsIndividually` | internal/caldav/client.go:367-396 | Single GETs in order: events, malformed and empty counts, and the collector's growth |
| `BatchedFetch.FetchClient.GetEventsBatch` | internal/caldav/client.go:310-364 | One MULTIGET: its non-empty objects in order, the others counted and collected; a failed one collects nothing |
| `BatchedFetch.FetchClient.GetEventsViaList` | internal/caldav/client.go:265-307 | The batch loop with fallback, for every list of paths |
| `BatchedFetch.BatchesCover` | internal/caldav/client.go:269-287 | The batches that the fetch is defined over are the whole list cut in order, none empty, none over fifty |
| `BatchedFetch.NextBatch` | internal/caldav/client.go:276-296 | The slice that a turn of the loop takes is the next of these batches |
| `BatchedFetch.BatchingIsTransparent` | internal/caldav/client.go:265-307 | If every MULTIGET fails or agrees with single GETs, the result equals fetching each path in order, whichever batches fall back |
| `BatchedFetch.SkippedIsCollected` | internal/caldav/client.go:269-307 | The collector grows by malformed plus empty, whatever the MULTIGETs answer |
| `BatchedFetch.PathsAreAccounted` | internal/caldav/client.go:367-396 | Events + malformed + empty + dropped is the number of paths |
| `BatchedFetch.OneByOneIsExact` | internal/caldav/client.go:367-396 | Single GETs bring in exactly the fetched events with data; malformed and empty ones are counted as such and collected under their path and message |
| `BatchedFetch.ObjectsAreCollected` | internal/caldav/client.go:327-363 | A MULTIGET brings in exactly its objects with data; the empty ones are counted and collected |
| `ActivityLog.Tracker.StartSync` | internal/activity/activity.go:46-57 | The source gets a fresh running entry; nothing else changes |
| `ActivityLog.Tracker.UpdateCalendar` | internal/activity/activity.go:60-68 | Changes the two calendar fields of an active entry in place, and no other object |
| `ActivityLog.Tracker.UpdateProgress` | internal/activity/activity.go:71-82 | Replaces the counters of an active entry in place, and no other object |
| `ActivityLog.Tracker.IncrementProgress` | internal/activity/activity.go:85-96 | Adds to the counters of an active entry in place |
| `ActivityLog.Tracker.FinishSync` | internal/activity/activity.go:99-133 | The active entry is completed and moves to the front of the log, of which the recent list stays the newest twenty; without an active entry nothing changes |
| `ActivityLog.Tracker.GetRecent` | internal/activity/activity.go:151-161 | Fresh copies of the recent entries, in order |
| `ActivityLog.ActiveIsRunning` | internal/activity/activity.go:46-133 | In every call sequence a source is active exactly while a started sync has not finished, and its entry is running with the data of that start |
| `ActivityLog.FinishedStays` | internal/activity/activity.go:123-127 | The log of finished syncs only grows at its new end |
| `ActivityLog.RecentStays` | internal/activity/activity.go:123-127 | An entry of the recent list stays unchanged, moving back by one per finished sync, until twenty newer ones push it out |

## Left out

- HTTP, TLS, PROPFIND and REPORT transport, XML and iCalendar decoding: the model starts from decoded lists. Which of
  calendar-query and PROPFIND a listing comes from is part of the listing's answer, which may also hide events.
- The UID a put finds in the event data is a parameter; the model keeps an event's UID, summary and start beside its data
  and does not re-parse them. A server's own refusal of a second resource with the same UID is one of its possible answers.
- SQLite: the table is a map for one source calendar, and a failing statement changes nothing.
- Go's calendar arithmetic: times are integers, the cutoffs are parameters, and the reading of a start time in one layout is
  a parameter. Two clock readings per alert are modelled, the alert's own timestamp is not.
- Convergence is stated for one-way `source_wins` runs without a date window, with the conditions on UIDs, paths and tags
  given in the module. For two-way runs the contents of shared events are covered, not the arrival of new ones.
- Users' edits happen between runs, not during one.
- Where `fullSync` finds the destination calendar, its malformed-event rows, status texts and per-event progress updates of
  the tracker; progress inside one calendar is overwritten by the source's totals.
- The dispatch of `syncCalendar` between delta and full sync; the source's totals are tied to full runs only.
- The scheduler's next-sync times, wait group, clean-up, health and stale-detection routines. Closing a stop channel and
  stopping its ticker are one step; a tick that is already waiting when the ticker stops may still be taken, which allows
  more runs than recent Go versions do.
- The endless select loops of the job goroutines are steps of the step system, not methods of the class.
- Sending of alerts by e-mail and webhook, `GetStaleSourceIDs`, `GetActive` and the text of durations.
- `BatchedFetch` does not model how the paths are found, and an answer of a server depends on the path, or for a MULTIGET
  on the batch, alone.
- Retries, log sanitising, web handlers, authentication, encryption, configuration and the front end: no property of the
  core depends on them.
