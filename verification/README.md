# Verified model of a process and queue toolkit

A Dafny model of the state machines and algebraic kernels of the toolkit, with proofs of what they
keep over every run and every input. `dafny verify dfyconfig.toml` checks the whole project.

What is modelled, by component:

- **Process supervisor** (`Windows`, `Supervisor`, `SupervisorInvariant`, `SupervisorTheorems`,
  `SupervisorSteps`, `SupervisorProgress`, `SupervisorDriver`, `SupervisorLeftovers`). A step machine of the driver, its
  sleepers and its instances over the maps `pendingStarts`, `runningByEntry` and `completedEntries`.
  One step is one synchronous section of one fiber; steps interleave freely, the clock only moves
  forward, and a sleeper fires no earlier than it asked. The theorems quantify over every sequence of
  steps. `SupervisorSteps` says what each step must do to its window, on the states before and after it
  alone. `SupervisorDriver.Process` holds the mutable maps and the loops and is proved against the
  machine.
- **Polling** (`Polling`): the `spaced` and `backoff` cadences, one service shared by all windows of a
  process, and the instance loop they bound.
- **Concurrency gate** (`RunGate`): any number of calls over one semaphore and one observed record,
  every interleaving of their atomic actions.
- **Record store** (`OrderedMap`, `StableSort`, `Records`, `SelectionLaws`, `Patches`, `Storage`, `StorageService`): the
  query DSL, stable ordering, windowing, patches, readonly protection, and programs of operations
  with failure, recovery and nested transactions. `StorageService.MemoryStorage` is the store with
  its loops; `Storage.Perform` and `Storage.Execute` are what it is proved to do.
- **Contracts and routing** (`Paths`, `SpecTree`, `Routing`, `SingleClient`): nested contracts, their flat dotted
  form, wire tags, clients against the server dispatch by instance key, and the service of an instance
  in its own process against the one through its client.
- **Usage windows** (`ApiUsage`, `ApiUsageTheorems`, `ApiUsageTime`), **history ring** (`HistoryStore`), **log ids**
  (`Decimal`, `NodeLogs`), **command names** (`CommandNames`).

## What the proofs found

Where the code differs from its documentation or from what a caller may expect. Each point names the
lemma that gives a concrete run or input, or the exact condition under which the code does meet it.

- A reconcile that finds a window open, before the pending sleeper of that window is served, spawns
  the window itself and leaves the sleeper pending. If that instance ends before the sleeper fires, the
  window is started a second time (`SupervisorTheorems.LateSleeperStartsTwice`, reachable by
  `SupervisorTheorems.OvertakenSleeperIsReachable`). Without such an overtaking a window that stays
  scheduled is started at most once, and exactly once by the end of a reconcile that found it open
  (`SupervisorProgress.StartedExactlyOnce`). In a run it is started at most once exactly when no sleeper
  fires for it after it was started and has ended (`SupervisorTheorems.StartedOnceIffNoRestart`).
- With an execution store, `hasPriorExecutions` is read between the window check and the user effect,
  so the effect can begin after its window closed; without one it never does
  (`SupervisorTheorems.EffectsBeginInWindowIffNoStoreRead`).
- A completed key outside the schedule can survive a reconcile (`SupervisorLeftovers.LeftoverIsReachable`).
  A reconcile leaves none behind, whatever interleaves with it, exactly when every running and every
  pending key is scheduled as it begins (`SupervisorLeftovers.NoLeftoversIff`). The "only if" half lets the
  driver be suspended anywhere after it pruned the completed keys: it waits there for each stale sleeper,
  and with none stale only if the scheduler makes it yield.
- The start-time half of the staleness test never decides anything, because the key already fixes the
  start (`SupervisorInvariant.StaleMeansUnscheduled`).
- `create` and `upsert` test their guard when the effect is built, not when it is run. An upsert built
  before a row became readonly still replaces it (`Storage.LateUpsertReplacesReadonly`); the condition
  is in `Storage.LateEffectsAreCurrentIff`. The other storage results are about operations that are
  built and run at once.
- A delete whose predicate mentions readonly = true inside an `Or` can remove writable rows as well
  (`Records.OrMentionsWithoutPinning`). One whose predicate pins the test, with or without `Or` groups,
  removes readonly rows only (`Storage.PinnedDeleteRemovesReadonlyOnly`).
- `Update(a1, …, an)` differs from the assignments one by one when an assignment without effect
  (`undefined`, or `null` on a required column) comes last on a column that an earlier one changed
  (`Patches.UpdateIsSequential`); the same condition governs merging patches (`Patches.PatchesCompose`).
- The empty `And` group matches no row while `Where()` matches every row (`Records.WhereIsConjunction`).
- A `backoff` whose `initial` exceeds `max` waits `initial` once (`Polling.BackoffClosedForm`). With two
  instances waiting on one service, a wake or a reset ends only the wait that began last
  (`Polling.PollingService.RequestWake`).
- A call interrupted between its grant and its "started" publication stays counted as waiting for ever:
  the observed `waiting` is right exactly when there was no such call (`RunGate.WaitingDriftsByDropped`).
- An empty nested group has no path and does not come back from the flat form
  (`SpecTree.NestAfterFlatten`).
- Two groups can share a wire tag exactly when one id is the other followed by a slash and more
  (`Routing.GroupsShareATagIff`), and then only when one of the member paths holds a slash
  (`Routing.WireTagInjective`).
- Through `clientInstances` a `ref` member is the bare change stream and a `constant` member the effect, not
  its value; every other member is used as if it were local (`Routing.LocationTransparency`). The wire
  service type promises a subscribable for the former (src/Resource.ts:938-948). The client of a single
  instance resolves constants and subscribes to refs (`SingleClient.AsIfLocal`).
- Log ids stop sorting as numbers after 10^12 lines (`NodeLogs.StringOrderIsLogOrder`).
- An API usage window can report a negative length (`ApiUsageTheorems.WindowMillisCanBeNegative`). In a run
  none does exactly when no take fires with a clock reading older than the start of the window it takes
  (`ApiUsageTime.LengthsNotNegativeIff`), so never when no take falls between a taker's reading and its own
  take (`ApiUsageTime.UndisturbedLengths`). Two groups can share a row exactly when one name is the other
  followed by the NUL separator and more (`ApiUsage.GroupsShareARowIff`).
- Adding a tag renames an existing command exactly when the new key has the very suffix that named it
  and that name was not the whole key (`CommandNames.AddingATagRenamesIff`).

## Model

| member | source | states |
|---|---|---|
| Windows.EntryKeyInjective | src/Process.ts:687-698 | equal keys mean the same start, the same stop and the same position of the schedule |
| Windows.EntryKeySplits | src/Process.ts:687-698 | a key splits at its colons into the start, the stop or "none", and the position |
| Windows.MaterializeKeysDistinct | src/Process.ts:703-709 | within one schedule each key names one item |
| Windows.Find | src/Process.ts:859 | finds an item with the key exactly when the schedule has one |
| Windows.MinDate | src/Process.ts:623-629 | the least of the dates, none for an empty list |
| Windows.ArmedIsConstantUpToNextBoundary | src/Process.ts:631-668 | whether some window is open cannot change before the next start or stop |
| Windows.Summarize | src/Process.ts:631-668 | `armed` is exact, the next transition is the first boundary, the next trigger run the least future start, and `armed` stays right until that transition, or for ever when none is reported |
| SupervisorInvariant.StaleMeansUnscheduled | src/Process.ts:857-866 | a pending start is stale exactly when its key is not in the schedule |
| SupervisorInvariant.StepKeeps | src/Process.ts:544-899 | every step of every fiber keeps the bijections between maps and live fibers, the window bounds of instances and executions, and what a reconcile in progress has established |
| SupervisorInvariant.RunKeeps | src/Process.ts:544-899 | the invariant holds after every run |
| SupervisorTheorems.RunsStartInTheirWindow | src/Process.ts:715-899 | no run is ever recorded as started outside its window, be it by direct spawn, by a sleeper or on a later tick |
| SupervisorTheorems.EffectsBeginInWindowIffNoStoreRead | src/Process.ts:544-589 | no user effect begins outside its window in any run if and only if there is no execution store to read first |
| SupervisorTheorems.EffectAfterClose | src/Process.ts:544-589 | a run with a store whose effect begins after the window closed |
| SupervisorSteps.FireStartsTheWindow | src/Process.ts:813-826 | a sleeper that fires is gone and no longer pending, its key is running, and unless it was running already one instance of its whole entry has been started |
| SupervisorSteps.PendingIsStartedByItsTimer | src/Process.ts:800-833 | a pending window is started by its own timer: whatever other steps follow, with or without a reconcile, its sleeper is still there at the start and firing it makes the window run |
| SupervisorSteps.InterruptStartsNothing | src/Process.ts:857-866 | an interrupted sleeper is gone with its pending entry and starts nothing; one that is already done is left alone |
| SupervisorSteps.PlaceOutcome | src/Process.ts:868-897 | what placing an item does in each case: nothing, a start, completion without a start, or a sleeper that wakes at the start |
| SupervisorSteps.BeginOutcome | src/Process.ts:835-866 | a reconcile begins by dropping the completed keys that are not scheduled and captures the sleepers of exactly the keys that are not |
| SupervisorSteps.OpenWindowRuns | src/Process.ts:544-567 | an instance that finds its window open, at its check or after its tick, enters its user effect at once without a store, or reads the store first |
| SupervisorSteps.StoreAnswersRuns | src/Process.ts:554-589 | when the store answers the user effect is entered, under the recorded start |
| SupervisorSteps.PollingGoesRound | src/Process.ts:744-770 | with polling an open window leads from the check to the wait and the end of the user effect back to the check |
| SupervisorSteps.CheckedInstanceRuns | src/Process.ts:735-770 | from a check that finds the window open, the instance runs its user effect exactly once, whichever services are there |
| SupervisorSteps.LeavesIffEnds | src/Process.ts:735-798 | an instance leaves if and only if its window has closed at a check, it dies, or its one effect without polling is over; its key is then completed and not running, and until then it keeps key and entry |
| SupervisorSteps.OnlyRunsExecute | src/Process.ts:544-611 | executions are only ever appended, one at a time, for the instance that runs |
| SupervisorTheorems.OneLiveInstancePerWindow | src/Process.ts:715-798 | no key has two live instances, `activeInstances` is the size of `runningByEntry`, and the clamp of an ending instance never acts |
| SupervisorTheorems.ReconcileForgetsNothing | src/Process.ts:835-899 | when a reconcile ends every scheduled key is running, completed or pending, every pending key is scheduled, and a completed key that is not scheduled belongs to an instance that ended meanwhile |
| SupervisorLeftovers.NoLeftoversIff | src/Process.ts:846-866 | from any state the invariant allows, every completion of the next reconcile ends with scheduled completed keys only if and only if every running and every pending key is scheduled when it begins |
| SupervisorLeftovers.TidyReconcile | src/Process.ts:835-899 | with nothing stray at its beginning a reconcile never holds an unscheduled completed key |
| SupervisorLeftovers.Leftover | src/Process.ts:773-826 | from any state with a stray instance or sleeper a run leaves its key completed |
| SupervisorLeftovers.LeftoverIsReachable | src/Process.ts:846-866 | such a run from the start, in which the instance dies while the driver waits for a stale sleeper to be interrupted |
| SupervisorTheorems.StartedAtMostOnce | src/Process.ts:711-899 | a window that stays scheduled and is never spawned by a reconcile over its pending sleeper is started at most once over the whole run |
| SupervisorProgress.OpenWindowsAreStarted | src/Process.ts:868-897 | every window open at a reconcile's clock reading has been started by the end of it |
| SupervisorProgress.StartedExactlyOnce | src/Process.ts:711-899 | such a window that stayed scheduled and was never overtaken has been started exactly once |
| SupervisorTheorems.StartedOnceIffNoRestart | src/Process.ts:711-899 | a window that stays scheduled is started at most once in a run if and only if no sleeper of the run fires for it after it was started and is no longer running |
| SupervisorTheorems.LateSleeperStartsTwice | src/Process.ts:800-826 | from any reachable state in which an open window's sleeper is overtaken, the window can be started twice |
| SupervisorTheorems.OvertakenSleeperIsReachable | src/Process.ts:835-899 | such a state is reached by a run in which the window stays scheduled |
| SupervisorDriver.Process.SpawnEntryInstance | src/Process.ts:715-798 | spawns at most one instance per key; the whole new state |
| SupervisorDriver.Process.FinishInstance | src/Process.ts:773-790 | the finalizer of an instance; the whole new state |
| SupervisorDriver.Process.ScheduleFutureEntry | src/Process.ts:800-833 | spawns at once when the start has passed, else forks and records a sleeper |
| SupervisorDriver.Process.WakeSleeper | src/Process.ts:813-826 | a fired sleeper spawns an instance of its entry unless its key is running, then it and its pending entry are gone |
| SupervisorDriver.Process.PruneCompleted | src/Process.ts:846-855 | the completed keys become those that are still scheduled |
| SupervisorDriver.Process.InterruptStaleStarts | src/Process.ts:857-866 | exactly the stale pending starts and their sleepers are gone |
| SupervisorDriver.Process.PlaceEntry | src/Process.ts:868-897 | one iteration of the placing loop, in the order of its tests |
| SupervisorDriver.Process.ReconcileSchedules | src/Process.ts:835-899 | one reconcile that nothing interleaves with; the whole new state |
| SupervisorDriver.InterruptAll | src/Process.ts:857-866 | interrupting the stale sleepers one by one, in any order, drops exactly them |
| SupervisorDriver.ReconcileIsARun | src/Process.ts:835-899 | that reconcile is one of the runs of the step machine, from every state the invariant allows |
| SupervisorDriver.ReconcileAtOnceIsExact | src/Process.ts:835-899 | after it every scheduled key is running, completed or pending, and nothing pending or completed is outside the schedule |
| Polling.PollingService.AfterTick | src/Polling.ts:228 | a backoff is multiplied by the factor and capped at its maximum, a spaced cadence stays |
| Polling.PollingService.BeginWait | src/Polling.ts:217-221 | a wait replaces the one a wake would end, and no earlier wake ends it |
| Polling.PollingService.RequestWake | src/Polling.ts:94-96 | a wake ends the wait that began last and no other |
| Polling.PollingService.ResetCadence | src/Polling.ts:230-232 | a backoff starts over, a spaced cadence stays, and the current wait is woken |
| Polling.BackoffClosedForm | src/Polling.ts:201-247 | the wait before run k is min(initial * factor^k, max), exactly unless k is 0 and initial exceeds max |
| Polling.FirstAndSpacedWaits | src/Polling.ts:113-247 | a spaced service waits its interval before every run, a backoff its initial wait before the first |
| Polling.UncappedIsPower | src/Polling.ts:201-247 | the uncapped cadence is initial times a power of the factor |
| Polling.CadenceAtLeastMin | src/Polling.ts:113-247 | every wait is at least the minimum cadence, which is positive |
| Polling.AloneAndFresh | src/Polling.ts:201-247 | alone on a fresh service an instance waits the closed-form cadences |
| Polling.RunPollingInstance | src/Process.ts:744-770 | on a service that earlier windows advanced and overlapping ones go on advancing, an instance with a stop terminates, its runs are exactly the ticks before the stop, at least the minimum cadence apart and fewer than the minimum cadence fits into the window, and the service stays usable for the next window |
| Polling.SpacedRunsOnTheGrid | src/Polling.ts:113-130 | on an exact timer a spaced instance runs at the multiples of its interval |
| RunGate.NeverOverConcurrency | src/RunResource.ts:335-452 | in every run observed in-flight calls never exceed the concurrency and free plus held permits equal it |
| RunGate.ClampsNeverAct | src/RunResource.ts:386-446 | whenever a clamped counter is decremented it is at least one |
| RunGate.AnnouncedCallsAreConserved | src/RunResource.ts:335-452 | waiting, in flight, completed, failed and interrupted add up to the calls that have announced themselves |
| RunGate.WaitingDriftsByDropped | src/RunResource.ts:385-407 | the observed waiting calls exceed those that do wait by exactly the calls interrupted between grant and "started", and are right if and only if there was none |
| RunGate.QuiescentGateIsWhole | src/RunResource.ts:397-449 | when every call is over all permits are back, nothing runs, each call is in one outcome counter or was dropped at its start, those alone still count as waiting, and the total duration is the sum of the calls' durations |
| RunGate.ChangesReplayTheRecord | src/RunResource.ts:340-368 | the stored changes chain from the initial record to the current one, each is the update its reason names, and no change id repeats |
| RunGate.ChangesAreDated | src/RunResource.ts:340-368 | over every run the changes are dated by the clock, in order, with the record they made, and no duration is negative |
| RunGate.DurationsAreMeasured | src/RunResource.ts:397-446 | the start is read as the "started" change begins, and a duration is the time from there to the end of the effect: the clamp never acts |
| RunGate.RunResourceGate.constructor | src/RunResource.ts:335-339 | a fresh gate with all permits free |
| RunGate.RunResourceGate.NewCall | src/RunResource.ts:378 | a call draws its run id |
| RunGate.RunResourceGate.NextStateChangeId | src/RunResource.ts:252-262 | a publication draws its id before it modifies the record |
| RunGate.RunResourceGate.PublishState | src/RunResource.ts:340-368 | the atomic update, reporting the record before and after |
| RunGate.RunResourceGate.TryTake | src/RunResource.ts:385 | a permit is granted exactly when one is free |
| RunGate.RunResourceGate.InterruptAtSemaphore | src/RunResource.ts:385-394 | an interrupted wait leaves without a permit |
| RunGate.RunResourceGate.InterruptBeforeStart | src/RunResource.ts:397-407 | a call interrupted after its grant keeps its permit until the release, and the record does not learn of it |
| RunGate.RunResourceGate.EffectOver | src/RunResource.ts:409-446 | the outcome and the duration, clamped at zero |
| RunGate.RunResourceGate.ReleasePermit | src/RunResource.ts:448 | the permit goes back |
| RunGate.RunResourceGate.RunCall | src/RunResource.ts:376-450 | a call on its own takes a free permit and gives it back, leaving one more outcome, its duration and three state changes; with no free permit it is left waiting |
| Records.WhereIsConjunction | src/Query.ts:393-408 | `Where(p1, …, pn)` matches a row exactly when every pi does, for n = 0 too, while empty groups match nothing |
| Records.PinnedMatchIsReadonly | src/RuntimeStorage.ts:402-425 | a predicate that pins readonly = true, `Or` groups included, matches readonly rows only |
| Records.MentionsIffPart | src/RuntimeStorage.ts:410-425 | a query lifts the protection if and only if the test readonly = true occurs in its predicate, at any depth |
| Records.MentionPinsReadonly | src/RuntimeStorage.ts:410-425 | without `Or` a predicate that mentions readonly = true pins it |
| Records.OrMentionsWithoutPinning | src/RuntimeStorage.ts:410-425 | with `Or` it can match a writable row |
| Records.CompareIsPreorder | src/RuntimeStorage.ts:427-446 | the multi-key comparator is a total preorder |
| Records.OrderChainIsRepeatedSort | src/Query.ts:259-268 | sorting by chained keys equals one stable sort per key, last key first |
| Records.SelectIsStableWindow | src/RuntimeStorage.ts:448-470 | a selection is a window of a permutation of the matching rows sorted by the comparator, tied rows in their stored order; `SelectionLaws.ComparatorMeaning` says what the comparator means |
| SelectionLaws.ComparatorMeaning | src/RuntimeStorage.ts:427-446 | the comparator puts rows in order exactly when the keys do, first key first, each in its own direction: dates by `<=` or `>=`, texts by the collation; rows are tied when either may stand first |
| SelectionLaws.SelectIsOrdered | src/RuntimeStorage.ts:427-470 | of two selected rows the earlier one is in order before the later one, whatever the window |
| SelectionLaws.NewestFirst | src/RuntimeStorage.ts:431 | without an explicit order no row is older than a later one of the selection |
| SelectionLaws.OrderedByDate | src/RuntimeStorage.ts:427-446 | by one date, ascending has the oldest row first and descending the newest |
| SelectionLaws.OrderedByText | src/RuntimeStorage.ts:427-446 | by one column, the texts ascend or descend in the collation, unset ones as the empty text |
| SelectionLaws.SelectIsSlice | src/RuntimeStorage.ts:448-470 | a window shows the slice its offset and limit name, negative ones as zero, of the selection without a window, which has every matching row as often as it is stored |
| SelectionLaws.FilterInOrder | src/RuntimeStorage.ts:466 | the rows that match keep their stored order |
| SelectionLaws.TestsOnAColumn | src/RuntimeStorage.ts:374-408 | what equality, its negation, the null tests and lists of alternatives say about a text column |
| SelectionLaws.TestsOnTheRow | src/RuntimeStorage.ts:374-408 | what they say about the id and the readonly flag |
| SelectionLaws.TestsOnADate | src/RuntimeStorage.ts:374-408 | after, before and between are strict at both ends, on either date |
| SelectionLaws.TestsOnGroups | src/RuntimeStorage.ts:403-407 | a group of two is their conjunction or disjunction |
| Records.SelectMembers | src/RuntimeStorage.ts:460-470 | every selected row is stored and matches, and is selected no more often than it is stored |
| Records.PagesConcatenate | src/Query.ts:411-426 | consecutive offset and limit pages concatenate to the whole selection |
| StableSort.SortIsStable | src/RuntimeStorage.ts:432 | the sort used is a stable sort and a permutation |
| StableSort.StableSortUnique | src/RuntimeStorage.ts:432 | sortedness and stability determine the result, so any stable sort may stand for the engine's |
| Patches.PatchFromAssignments | src/Query.ts:450-458 | a property is in the patch exactly when it is assigned, and then with the last value assigned to it |
| Patches.PatchIsCarriedOut | src/RuntimeStorage.ts:473-500 | a value put into any column is there, `null` empties an optional column and leaves one of the five required ones, other columns are as they were, and id, creation time and protection stay |
| Patches.CarriedOutOnce | src/RuntimeStorage.ts:473-500 | nothing else is: that determines the patched row |
| Patches.UpdateIsSequential | src/Query.ts:467-480 | `Update(a1, …, an)` equals the single assignments in order on every row if and only if no assignment without effect comes last on a changed column |
| Patches.PatchesCompose | src/RuntimeStorage.ts:473-500 | two patches compose to their right-biased merge on every row if and only if the second hides no change of the first |
| OrderedMap.SetPresent | src/RuntimeStorage.ts:529 | setting a present key keeps its position |
| OrderedMap.SetAbsent | src/RuntimeStorage.ts:510 | setting a new key appends |
| Storage.WriteChangesOneBinding | src/RuntimeStorage.ts:506-519 | exactly when create and upsert refuse and with which error, and that a write changes one binding and keeps the order of the others |
| Storage.UpdateCarriesOut | src/RuntimeStorage.ts:520-533 | an update carries the patch out on every selected row that is not readonly, keeps every key and position, and leaves every other row as it was |
| Storage.DeleteRemovesExactly | src/RuntimeStorage.ts:534-547 | a delete leaves exactly the rows it did not select, and the selected readonly ones unless the test readonly = true occurs in its predicate |
| Storage.RemoveInOrder | src/RuntimeStorage.ts:534-547 | the rows a delete leaves keep their order |
| Storage.RemoveMembers | src/RuntimeStorage.ts:534-547 | a delete removes exactly the selected rows that are not protected |
| Storage.RemoveKeepsKeyed | src/RuntimeStorage.ts:534-547 | after a delete every key is still its row's id |
| Storage.ProgramsKeepKeyed | src/RuntimeStorage.ts:503-568 | after any program every key is its row's id and no id occurs twice |
| Storage.CommittedIsDirect | src/RuntimeStorage.ts:549-567 | successful transactions, nested to any depth, leave the exit, the replies and the ordered map that the same operations leave when run directly |
| Storage.TableIsReplayOfCommitted | src/RuntimeStorage.ts:549-567 | whatever fails, is recovered from or is rolled back at any depth, the table is the starting one with the lasting operations performed on it in order |
| Storage.ReadonlyRowsStand | src/RuntimeStorage.ts:514-547 | a readonly row stays identical through any program until a delete whose predicate mentions readonly = true |
| Storage.PinnedDeleteRemovesReadonlyOnly | src/RuntimeStorage.ts:534-547 | a delete whose predicate pins readonly = true removes readonly rows only |
| Storage.OrFreeLiftRemovesReadonlyOnly | src/RuntimeStorage.ts:534-547 | so does one that mentions readonly = true and is free of `Or` |
| Storage.CountsAreExact | src/RuntimeStorage.ts:520-547 | an update counts the selected rows and those it changed; a delete counts every selected row that is not protected, and that many rows are gone |
| Storage.LateEffectsAreCurrentIff | src/RuntimeStorage.ts:506-519 | a create or upsert built earlier does what it would do now if and only if its guard decides the same on both tables |
| Storage.LateUpsertReplacesReadonly | src/RuntimeStorage.ts:514-519 | an upsert built before its row became readonly replaces it |
| StorageService.MemoryStorage.CopyOf | src/RuntimeStorage.ts:551 | a copied map has the same bindings in the same order |
| StorageService.MemoryStorage.BuildCreate | src/RuntimeStorage.ts:506-508 | building the effect decides the guard on the table of that moment |
| StorageService.MemoryStorage.BuildUpsert | src/RuntimeStorage.ts:514-516 | building the effect decides the guard on the table of that moment |
| StorageService.MemoryStorage.RunEffect | src/RuntimeStorage.ts:509-519 | running it later writes or refuses on the table it then finds |
| StorageService.MemoryStorage.Create | src/RuntimeStorage.ts:506-511 | built and run at once: table and reply of the specified operation |
| StorageService.MemoryStorage.Read | src/RuntimeStorage.ts:512-513 | the selection, in the order the query asks for and of stored, matching rows only, the table unchanged |
| StorageService.MemoryStorage.Upsert | src/RuntimeStorage.ts:514-519 | built and run at once: table and reply of the specified operation |
| StorageService.MemoryStorage.Update | src/RuntimeStorage.ts:520-533 | table and reply of the specified operation; the patch is carried out on exactly the selected rows that are not readonly |
| StorageService.MemoryStorage.PatchRows | src/RuntimeStorage.ts:524-531 | the loop rewrites exactly the selected writable rows in place and counts them |
| StorageService.MemoryStorage.Delete | src/RuntimeStorage.ts:534-547 | table and reply of the specified operation; the count is that of the selected rows not protected |
| StorageService.MemoryStorage.DeleteRows | src/RuntimeStorage.ts:538-545 | the loop removes exactly the selected unprotected rows and counts them |
| StorageService.MemoryStorage.RunTransaction | src/RuntimeStorage.ts:549-567 | copy, run, then clear and refill on success or drop on failure: a failed transaction leaves the map as it was, a successful one leaves the table of its body |
| StorageService.MemoryStorage.Run | src/RuntimeStorage.ts:503-568 | running a program on the store gives its specified exit, replies and table |
| Paths.SplitOfJoin | src/Resource.ts:375 | joining parts without the separator and splitting again gives the parts |
| SpecTree.SetPathAdds | src/Resource.ts:408-422 | setting a free path adds exactly that leaf |
| SpecTree.FreeWhenIncomparable | src/Resource.ts:408-422 | a path is free exactly when no leaf lies on it, before it or below it |
| SpecTree.BuildHasWantedLeaves | src/Resource.ts:408-422 | building from prefix-free paths overwrites no leaf and no group and yields exactly the wanted leaves |
| SpecTree.BuildOrderIrrelevant | src/Resource.ts:1885-1898 | every order of the paths builds the same tree |
| SpecTree.SameLeavesSameObject | src/Resource.ts:385-403 | trees without empty groups are determined by their leaves |
| SpecTree.NestService | src/Resource.ts:385-403 | nesting has exactly the leaves of the flat record, whichever order its loop takes |
| SpecTree.FlattenedSpecIsExact | src/Resource.ts:357-364 | a dotted key names a flat member exactly when splitting it leads to that leaf |
| SpecTree.LeafPathsPrefixFree | src/Resource.ts:357-364 | no leaf of a contract lies on the way to another |
| SpecTree.FlattenedIsPrefixFree | src/Resource.ts:357-364 | the flattened contract is prefix-free |
| SpecTree.FlattenImpl | src/Resource.ts:368-381 | the walk of each path, throwing exactly when a step from `undefined` is taken |
| SpecTree.ConformingFlattens | src/Resource.ts:368-381 | flattening a conforming implementation finds every member |
| SpecTree.ConformingFullIff | src/Resource.ts:357-381 | an implementation has an empty group exactly where its contract has one |
| SpecTree.NestAfterFlatten | src/Resource.ts:366-403 | nesting after flattening returns every member at its path, and the original tree if and only if the contract has no empty nested group |
| Routing.WireTagInjective | src/Resource.ts:1098 | within a group the tag determines the member; with slash-free paths it determines both |
| Routing.GroupsShareATagIff | src/Resource.ts:1098 | two groups can share a tag if and only if their ids are equal or one extends the other past a slash |
| Routing.Registry.Claim | src/Resource.ts:1609-1639 | a group id or instance key is accepted exactly once |
| Routing.ProvidedWalk | src/Resource.ts:366-381 | on an implementation with every group and wire member, flattening never throws and reaches every wire member, whether local members are there or not |
| Routing.ServeInstances | src/Resource.ts:2393-2414 | for implementations that provide the wire members, the routing table holds each instance's own members, or the first duplicate key is reported |
| Routing.ForwardClient | src/Resource.ts:2480-2514 | every wire member is forwarded under its tag, pinned to the instance key; local members are skipped |
| Routing.ClientInstances | src/Resource.ts:2989-3014 | one nested client per key with exactly the contract's wire members |
| Routing.LocationTransparency | src/Resource.ts:1937-1953 | at every wire path the client reaches that instance's own member with the same arguments, pairs packed and unpacked; the use equals the local one exactly for members that are neither refs nor constants |
| SingleClient.BuildLocal | src/Resource.ts:1884-1898 | the local service holds exactly the members of the contract: constants resolved, local-only ones behind the capability |
| SingleClient.BuildClient | src/Resource.ts:2865-2899 | the client's service holds a leaf per member of the contract, or the build fails at a constant that cannot be acquired |
| SingleClient.AsIfLocal | src/Resource.ts:2865-2899 | served, built locally and built through its own client, an instance has leaves at exactly the contract's paths in both services; calls, effects and constants give the same use, a ref is a subscription to that member's changes, and a local-only member dies through the client |
| Routing.ServedTagsAnswer | src/Resource.ts:2393-2449 | after serving, exactly the wire tags of the contract have a handler; it uses the own member of the instance the header names, and dies with the routing error for a missing key or one of no instance |
| Routing.CallThrough | src/Resource.ts:2393-2449 | the same end to end through serving, client building and calling, for any distinct instances |
| HistoryStore.MemoryHistory.Append | src/HistoryStore.ts:69-78 | every stream holds exactly its newest `capacity` entries, other streams are untouched |
| HistoryStore.MemoryHistory.Read | src/HistoryStore.ts:79-93 | the answer is the time filter, then the newest `limit`, of the retained entries |
| HistoryStore.Narrow | src/HistoryStore.ts:86-88 | filtering by one bound after the other is the time window |
| HistoryStore.TimeFilterKeeps | src/HistoryStore.ts:86-88 | the time window keeps, in order, exactly the entries not before `since` and not after `until` |
| HistoryStore.NewestIsEnd | src/HistoryStore.ts:69-93 | the newest n are the last n, all when there are fewer, none for a negative n |
| HistoryStore.RingAnswersAsLogIff | src/HistoryStore.ts:62-94 | the ring answers as the unbounded log if and only if nothing dropped was asked for or the retained entries fill the limit |
| HistoryStore.RecentReadsAreComplete | src/HistoryStore.ts:79-93 | on a forward clock a read since an instant after some retained entry is complete |
| NodeLogs.LogWriter.PersistBatch | src/NodeLogs.ts:104-115 | a batch takes the next range of ids |
| NodeLogs.LogWriter.PersistAll | src/NodeLogs.ts:99-117 | however the log is split into batches the stored rows number the lines from 0 without gap or repeat |
| NodeLogs.EntryIdInjective | src/NodeLogs.ts:109 | no two lines share an id |
| NodeLogs.StringOrderIsLogOrder | src/NodeLogs.ts:108-109 | ids sort as strings in log order if and only if the log has at most 10^12 lines |
| CommandNames.SegmentsOfJoin | src/cli/index.ts:177-178 | a suffix has the segments it was joined from |
| CommandNames.SegmentsInOrder | src/cli/index.ts:177 | the segments of an id are its parts between slashes without the empty ones, in order |
| CommandNames.DepthIsLeast | src/cli/index.ts:179-188 | the length of the chosen suffix is the least that no other tag shares |
| CommandNames.NameIsShortestOwnEnd | src/cli/index.ts:176-190 | a name, split at its slashes, is the end of its key that no other key has while every shorter end is shared, or it is the whole key and every end is shared |
| CommandNames.NameOf | src/cli/index.ts:179-188 | the counting loop returns that name |
| CommandNames.NamesDistinct | src/cli/index.ts:176-190 | distinct keys get distinct names |
| CommandNames.ResourcesByName | src/cli/index.ts:189 | the record built from all names and keys; every entry maps the name of a key, in that sense, to that key |
| CommandNames.NoTagIsLost | src/cli/index.ts:176-190 | it has one entry per key and finds every key under its name |
| CommandNames.AddingATagRenamesIff | src/cli/index.ts:176-190 | adding a tag renames a command if and only if the new key has that very suffix and the name was not the whole key |
| ApiUsageTheorems.AddedToPart | src/internal/apiUsageRegistry.ts:53-71 | merging an event adds it to its own endpoint's row and to the sum, and to no other row |
| ApiUsageTheorems.RowsAreNamed | src/internal/apiUsageRegistry.ts:42-71 | over every run each row is filed under the group and the endpoint it names |
| ApiUsageTheorems.TotalsAreConserved | src/internal/apiUsageRegistry.ts:85-158 | in every interleaving the running totals equal the emitted windows plus the open one plus the records caught mid-update, for requests and errors |
| ApiUsageTheorems.WindowRowsMakeTotals | src/internal/apiUsageRegistry.ts:53-110 | the rows of each emitted window sum to its totals |
| ApiUsageTheorems.CumulativeTrailsWindows | src/internal/apiUsageRegistry.ts:143-156 | an endpoint's cumulative row trails its window rows by exactly the records in between |
| ApiUsageTheorems.QuiescentTotalsAreEmitted | src/internal/apiUsageRegistry.ts:137-158 | with no record in progress the emitted windows make the totals and every record is counted |
| ApiUsageTheorems.QuiescentRowsAreEmitted | src/internal/apiUsageRegistry.ts:137-158 | with no record in progress each cumulative row is the sum of its emitted window rows |
| ApiUsageTheorems.WindowsTileTime | src/internal/apiUsageRegistry.ts:85-110 | each window starts where the one before it ended, so their lengths add up |
| ApiUsageTheorems.WindowMillisCanBeNegative | src/internal/apiUsageRegistry.ts:86-88 | a run in which a window's length is negative |
| ApiUsageTime.LengthsNotNegativeIff | src/internal/apiUsageRegistry.ts:85-88 | no window of a run has a negative length if and only if no take fires with a reading older than the start of the window it takes |
| ApiUsageTime.UndisturbedLengths | src/internal/apiUsageRegistry.ts:85-158 | none does in a run in which no take falls between a taker's clock reading and its own take |
| ApiUsage.UsageSink.RecordEvent | src/internal/apiUsageRegistry.ts:137-158 | one uninterrupted record is its six steps in a row |
| ApiUsage.UsageSink.EmitWindow | src/internal/apiUsageRegistry.ts:85-110 | the open window is handed over whole, a fresh one starts, and its metrics are published |
| ApiUsage.MetricsAreRates | src/internal/apiUsageRegistry.ts:90-108 | the published metrics carry the bounds, counts and names of the window, and throughput and averages give the requests and durations back |
| ApiUsage.UsageSink.Enter | src/internal/apiUsageRegistry.ts:135 | one more call has entered |
| ApiUsage.UsageSink.Exit | src/internal/apiUsageRegistry.ts:136 | one more call has left, the counter clamped at zero |
| ApiUsage.InFlightIsExactIff | src/internal/apiUsageRegistry.ts:135-136 | the in-flight counter is the number of calls inside if and only if no call ever left before entering |
| ApiUsage.EndpointKeyInjective | src/internal/apiUsageRegistry.ts:42 | keys tell endpoints apart when no group name holds the separator |
| ApiUsage.GroupsShareARowIff | src/internal/apiUsageRegistry.ts:42 | two groups can share a row if and only if their names are equal or one extends the other past a separator |
| ApiUsage.SeparatorInGroupCollides | src/internal/apiUsageRegistry.ts:42 | a group name with the separator always shares a key with another group |
| ApiUsage.TopEndpointsAreTheBusiest | src/internal/apiUsageRegistry.ts:115-123 | the snapshot lists the ten busiest endpoints, sorted |

## Left out

- The fiber runtime: fibers are interleaved steps; parent and child rules, scopes and fairness of the
  semaphore are not modelled. An instance may outlive the sleeper that spawned it.
- Interruption of a gate's call after its user effect has ended and before that is published. While it
  waits, between grant and start, and inside the user effect it is modelled.
- A clock that moves within one synchronous section: the window check of an instance and the start it
  records are two readings of the clock, taken as one instant here.
- Writes to the outer store while a transaction runs: the code overwrites them on success; programs here
  run one operation at a time.
- Loops inside storage programs: a program is a finite tree whose choices depend on all replies so far.
- Storage programs build and run each operation at once; an effect built early is covered by
  `StorageService.MemoryStorage.BuildCreate`, `BuildUpsert` and `RunEffect` outside programs.
- Other storage backends, serialization, the transport, headers and error codecs: I/O and foreign code.
- The order of `localeCompare`: an arbitrary total preorder on strings. JSON payloads are opaque text.
- NaN and floating-point rounding: durations and counters are integers or reals.
- `Polling.RunPollingInstance`: does not model a wake or a cadence reset while the instance runs, because
  with them no bound holds; in the supervisor a tick may arrive at any time. The outcome of the user
  effect is not modelled either: the loop advances the cadence after a failed run too, although
  src/Polling.ts:55 speaks of successful ones.
- `Polling.accelerating` and `Polling.jittered`: they need exponentials and randomness and add only bounds.
- `runImmediately`, the run counters and the mirror of the process snapshot: bookkeeping outside the schedule.
- The supervisor's schedule initializer and the change signal of the schedule: a reconcile may start at any
  moment the driver is idle.
- Update in place of nested service objects: trees are values, so live setters that write an object a
  consumer already holds, and aliasing, are not captured. Property names that an object inherits are not
  modelled either.
- `SpecTree.SetPath`: writing onto a leaf that stands in the way leaves the tree unchanged in the model; the
  proofs show that this never happens for prefix-free paths.
- `SpecTree.NestAfterFlatten`: states the round trip for dot-free names; a dotted name is a path of its own.
- `SingleClient.BuildClient`: does not model the cache behind a subscription, only which change stream feeds it.
- `Routing.LocationTransparency`: a call crosses the wire unchanged; schema encoding is not part of this model.
- `ApiUsage.UsageSink.EmitWindow`: takes and publishes in one step, so the order in which subscribers see
  the windows of interleaved takers, and a change of the in-flight number in between, are left open.
- The registry of sinks by client id: one map of independent sinks.
- Group and instance claims are one class used twice; the context keys built beside them are left out.
- Queue engines, durable stores, HTTP servers, telemetry and the web and terminal interfaces.
