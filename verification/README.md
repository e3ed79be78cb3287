# Verified models of PowerBarRations

PowerBarRations is a personal LLM gateway written in Go. This project models nine of its components in
Dafny and proves what they promise: of the concurrent ones over every interleaving, of the sequential
ones over every input or every sequence of calls.

| files | component |
|---|---|
| TaskTables, TaskProtocol, TaskGuarantees, TaskSweep, TaskRaces, TaskStore, TaskCalls | leased system tasks: several runners race with single SQL statements over two tables |
| JsonKeyScanner | the one-pass scan for repeated top-level keys of a request body, against the grammar of RFC 8259 |
| KeyList, MultiKey, KeyRotation | channels with many keys: sparse status maps re-indexed on deletion, and polling |
| WorkerPool | the bounded pool that tests channels, with cancellation |
| ModelNames, UpstreamSync | detecting and applying differences between a channel's models and its upstream's |
| HourlyStats, StatsColumns, StatsBackfill, StatsRace | the hourly index against the request log, and filling in a new dimension, alone and beside live writers |
| KeyLimiter, OvertakenCalls, MemoryLimiter | the two sliding-window limiters |
| NameOrder, MemberMigration, LaneCleanup, LaneResolution | lanes: the migration of members, cleaning up, resolution |
| LockOrder | the order in which the cache, pricing and status mutexes are taken |
| Options, Sets, GoStrings | a missing value; an element of a set; the functions of Go's `strings` package that are used |

`dafny verify dfyconfig.toml` checks everything.

## How things are modelled

A concurrent component is a state machine. Every SQL statement, channel rendezvous or lock operation is one
atomic step, operations in flight are program counters with the values they have read, and a theorem speaks of
every state of every run. A component that updates fields or tables in place is a class whose methods are proved
against functions of the old state, and the theorems are about those functions. Pure code is functions and lemmas.

Some promises turn out to need a condition. Each is proved together with the exact condition, or with a schedule
or input that shows what happens without it:

* A claim whose pending-to-running update runs after its own lease ran out can strand a running task with no lock
  row (`TaskRaces.LateClaimStrandsARunningTask`), which then runs for ever and blocks its type
  (`TaskRaces.StrandedForever`); the protocol theorems assume each claim's update runs within its lease.
* Even then a statement is judged by the time its operation read from the clock, not by the time at which it runs.
  A statement in flight takes effect exactly when the type's lock row names its task and runner and had not run out
  at that earlier time (`TaskGuarantees.OpTakesEffectExactly`), so that a late renewal revives a lease that has run
  out (`TaskRaces.LateRenewalRevivesALease`). A runner is locked out for good once its lease ran out before any
  statement it has in flight read the clock.
* The sweep can fail a running task whose lease is alive (`TaskRaces.SweepCanFailALiveTask`), but only if the task
  was started or its lease renewed after the sweep read its row (`TaskSweep.SweepFailsLiveTaskOnlyIfRevived`).
* The key scanner ignores square brackets, so for a JSON text that is an array it counts the members of the
  outermost objects inside. For a JSON object it is exact.
* A list of keys survives storing exactly when it is not empty, no key holds a newline, the outer keys are not
  empty and the text does not parse as a JSON array; `KeyList.EmptyFirstKeyIsLost` is a list that does not. A
  sequence of actions stays in step with the list of keys exactly when no deletion leaves such a list. Deleting the
  automatically disabled keys when all of them are such deletes none and enables them all, because an empty key text
  is never written.
* Applying upstream differences leaves what a new detection finds exactly when two conditions hold: every upstream
  name that is open for adding ends up a model or ignored just when it was ignored or is chosen, and the models the
  added names read back as are none that a detection would remove. Without names that begin with `regex:` this comes
  down to no added name holding a comma. With such names, and no comma in an added one, it comes down to the chosen
  names that are not added covering, of what is pending and not added, just themselves, and to whatever was ignored
  staying ignored without the rules that are added. Applying everything converges exactly when no name holds a comma
  and whatever was ignored stays ignored without the rules that are themselves added.
* Filling the combined statistics dimension from a log at rest is exact, where SQL and Go agree on which names are
  blank, exactly when no two entries of an hour spell one key in two ways, and, where keys are spelled in one way,
  exactly when SQL and Go agree on blank names.
  Beside live writers a row it inserted is exact if and only if nothing was pending for it at the scan, and a row it
  found is exact if and only if no entry from before the dimension belongs to it
  (`StatsRace.ExactIffNothingWasPending`); in `StatsRace.BackfillCountsTwice` a single entry is counted twice.
* An index query covers whole buckets at the start of its window and whole hours at its end: the day query looks at
  the day of `from` but at the hour of `until`.
* The per-key limiter reads the clock before it takes its lock, so a call may be overtaken by one with a later clock
  value. If values lag at most d seconds behind the latest one, no 60 - d seconds hold more admissions than the limit
  in any run, and that is the widest stretch of which it is true, except that with a limit of one and no cap it is
  always 60 (`OvertakenCalls.BoundedIffWithinSpan`). So 60 seconds are bounded if and only if no call is overtaken, or
  the limit is one without a cap (`OvertakenCalls.WindowBound`); `OvertakenCalls.Overtaking` and
  `OvertakenCalls.RefusedOvertaking` are schedules that fail. A refusal costs a later call nothing exactly when that
  call finds no time within the last minute that the refused one found older (`KeyLimiter.RefusalForgets` is a case).
* With fixed limits the wait that the per-key limiter advises is always enough. It is the least that is exactly when
  no time in the window is earlier than the first one, which holds if no call is overtaken, and it exceeds a minute
  exactly when the first one is later than the call's clock value. After the limit was lowered it may not be enough
  (`KeyLimiter.LoweredLimitNeedsLonger`).
* The in-memory limiter spaces admissions in every run exactly when the duration exceeds the expiration by no more
  than a second, or nothing is swept; otherwise `MemoryLimiter.Forgetful` is a schedule that fails.
* The migration of lane members changes what a member resolves to exactly when its stored value is a mapped name
  that nothing is mapped to (`MemberMigration.CollidingMemberChanges`). An active-member label still finds its member
  exactly when the channel's name holds no slash and does not begin with white space
  (`MemberMigration.SlashedLabelIsLost`).
* A disabled lane is shown in the console exactly when the name its own name is normalised to resolves to no enabled
  lane; otherwise that other lane is shown in its place (`LaneResolution.DisabledLaneDisappears`).

Where the comments and the code disagree the code is followed: the comment above the member migration says that all
three kinds of value keep their resolution; the comment of the backfill says that buckets already written live are
not added to, which holds only for buckets that exist when it inserts; the comment of display resolution says that a
model with only a disabled lane does not disappear.

## Model

| member | source | states |
|---|---|---|
| TaskProtocol.RunKeepsInv | model/system_task.go:212-409 | the protocol invariant (one active row per type, each running row leased by its owner, every operation in flight well placed) holds in every state of every interleaving of claims, updates, renewals, finishes, sweeps, errors and crashes |
| TaskProtocol.StepKeepsInv | model/system_task.go:212-409 | no single statement of any operation, whoever else is in flight, breaks the invariant |
| TaskProtocol.NothingRunsBehindExpiredLock | model/system_task.go:275-293 | when a claim finds its type's lock row expired, no task of that type is running |
| TaskGuarantees.RunningTaskHoldsItsLock | model/system_task.go:233-294 | in every reachable state a running task has a lock row naming exactly that task and its runner |
| TaskGuarantees.OneActiveTaskPerType | model/system_task.go:27-40 | at most one task per type is pending or running, and it is active exactly when its unique key is its type |
| TaskGuarantees.ClaimSucceedsAtMostOnce | model/system_task.go:233-252 | at most one claim of a task ever returns true, and it was the owner's |
| TaskGuarantees.RowsEvolve | model/system_task.go:233-408 | between any two states of a run a row only moves forward, its owner is written once, and a terminal row never changes |
| TaskGuarantees.NoStatusIsSkipped | model/system_task.go:351-408 | no step takes a row from pending to terminal |
| TaskGuarantees.LockChangesHandsOnlyAfterExpiry | model/system_task.go:255-294 | a lock row changes hands, or is deleted by anyone but its holder, only after its time has passed |
| TaskGuarantees.TakeoverDisplacesNothing | model/system_task.go:279-293 | a claim that takes over an expired row displaces no running task |
| TaskGuarantees.TakeoverMarkIsNoOp | model/system_task.go:226-231 | the mark that follows a takeover changes no row |
| TaskGuarantees.OneWriterPerType | model/system_task.go:302-308 | of one type at most one (task, runner) pair can write state or finish |
| TaskGuarantees.OpTakesEffectExactly | model/system_task.go:296-349 | a statement in flight takes effect exactly when its type's lock row names its task and runner with a time not before the one the operation read from the clock, and for a write or finish the task is running |
| TaskGuarantees.OutIsExact | model/system_task.go:296-349 | the owner of a running task is out exactly when nothing it has in flight, and nothing begun now, would take effect |
| TaskGuarantees.OutOpsFail | model/system_task.go:296-349 | whoever is out (does not own the task, or the lease is gone or ran out before any of the runner's statements in flight read the clock) has no update, renewal or finish that takes effect |
| TaskGuarantees.OutForever | model/system_task.go:296-409 | and stays out of that task for the rest of the run |
| TaskGuarantees.SweepFreesTheType | model/system_task.go:363-379 | once the sweep marked an expired row's task, its type accepts a new task |
| TaskSweep.SweepFailsLiveTaskOnlyIfRevived | model/system_task.go:363-379 | in every run, when a sweep fails a running task whose lease is alive, the task was started or its lease renewed after the sweep read the row, which had expired by then |
| TaskRaces.LateClaimStrandsARunningTask | model/system_task.go:233-247 | without the timing assumption there is a schedule that leaves a running task to which no lock row and nothing in flight refers |
| TaskRaces.StrandedForever | model/system_task.go:91-118 | from such a state on, whatever steps are taken, the row never changes and no task of its type can be created |
| TaskRaces.LateRenewalRevivesALease | model/system_task.go:334-349 | within the assumption there is a schedule in which a renewal that runs late revives a lease that has run out |
| TaskRaces.SweepCanFailALiveTask | model/system_task.go:363-371 | within the assumption there is a schedule in which the sweep fails a running task whose lease is alive |
| TaskStore.UninterruptedClaim | model/system_task.go:212-253 | the interleaved statements of a claim, run back to back, do exactly what the claim as a whole should |
| TaskCalls.UninterruptedFinish | model/system_task.go:386-409 | the statements of a finish, run back to back, make the row terminal with the given result and error and remove exactly the lock rows naming task and runner, or change nothing |
| TaskCalls.FinishIsReleased | model/system_task.go:386-409 | in every run a finish that took effect is followed by its release, unless that statement was lost or is still to come |
| TaskCalls.FinishStep | model/system_task.go:391-408 | the finishing statement by itself writes the outcome, leaves the locks and goes on to the release |
| TaskCalls.UninterruptedUpdate | model/system_task.go:296-332 | a state update is one statement that writes the state of a row whose lease is held, and nothing else |
| TaskCalls.UninterruptedRenewal | model/system_task.go:334-349 | a renewal is one statement that moves the end of the rows naming task and runner that have not run out, and nothing else |
| TaskCalls.UninterruptedSweep | model/system_task.go:363-379 | a sweep run back to back, from any list of the expired rows, fails exactly the running tasks they name and deletes exactly those rows |
| TaskCalls.SweepDeletesOnlyItsRow | model/system_task.go:371-376 | with others in between, a deletion removes the row it read exactly if it still names the same task and runner and has run out |
| TaskCalls.MarkedTaskReads | model/system_task.go:351-361 | a running task whose lease is marked expired fails with that error and gives up its key; any other row stays |
| TaskCalls.ClaimIsResolved | model/system_task.go:217-253 | in every run a claim that put its lock row is in flight, or returned true, or released the row, or the statement that was to end it failed, or its runner crashed |
| TaskCalls.FailedClaimReleases | model/system_task.go:221-241 | a claim that holds the row and meets an error releases it, writes no task and does not return true |
| TaskCalls.FailedInsertLooks | model/system_task.go:255-278 | one whose insert failed goes on with the row in the way, or changes nothing when there is none |
| TaskCalls.ErrorStep | model/system_task.go:217-253 | in flight, an error leads to exactly that next statement, and any other error ends the call |
| TaskStore.RunsAreConsistent | model/system_task.go:212-409 | in every state of every timely interleaving both tables are consistent: one active task per type, lock rows name tasks of their type, each running task's owner has its row |
| TaskStore.CreateNeedsIdleType | model/system_task.go:91-118 | on consistent tables a creation fails exactly when its type has an active task or the identifier is taken, and makes the new task, pending and nobody's, the only active one of its type |
| TaskStore.SystemTasks.AcquireLock | model/system_task.go:255-294 | the lock is taken exactly when no row is there or it has expired; also which task the old row named |
| TaskStore.SystemTasks.Claim | model/system_task.go:212-253 | a claim succeeds exactly when the task is pending and the lock free or expired, with its whole effect on both tables |
| TaskStore.LeaseIsOwnRow | model/system_task.go:302-308 | the EXISTS condition over all lock rows holds exactly when the row of the task's own type names task and runner and has not run out |
| TaskStore.StateWriteKeepsLease | model/system_task.go:296-332 | a state write by the holder of the lease changes that one field of that one row, keeps the tables consistent and leaves the runner able to write exactly as long as before |
| TaskStore.StrangersWriteNothing | model/system_task.go:296-332 | a state write by anybody else changes nothing |
| TaskStore.RenewalExtendsOwnRow | model/system_task.go:334-349 | a renewal moves the end of the runner's own lock row and of no other, only while it has not run out; the lease then lasts exactly until the new end |
| TaskStore.SystemTasks.Finish | model/system_task.go:386-409 | the row turns terminal and gives up its key and lock, or nothing happens |
| TaskStore.FinishFreesTheType | model/system_task.go:381-409 | a finish leaves the row terminal, its type without an active task and without a lock row, and the runner unable to write again |
| TaskStore.ClaimKeepsConsistent | model/system_task.go:212-294 | a claim run alone keeps the tables consistent: the task it displaces no longer runs |
| TaskStore.SweepKeepsConsistent | model/system_task.go:363-379 | so does a sweep run alone, after which every running task holds a lease that has not run out |
| TaskStore.SystemTasks.ExpireStale | model/system_task.go:363-379 | exactly the running tasks named by expired rows fail, and exactly those rows go |
| JsonKeyScanner.CountTopLevelJsonKey | middleware/distributor.go:103-159 | the loop with its six variables computes the automaton that the theorems below speak of |
| JsonKeyScanner.CountsTopLevelMembers | middleware/distributor.go:103-159 | on every JSON object, whatever its white space, nesting, arrays and escapes, the count is the number of its own members whose decoded name is the target |
| JsonKeyScanner.CountsOutermostObjects | middleware/distributor.go:103-159 | on every JSON text it counts the matching members of the outermost objects |
| JsonKeyScanner.CountIsTopLevelUnlessArrayHoldsMatch | middleware/distributor.go:66-80 | the count is that of the top-level members exactly unless the text is an array holding a matching object |
| KeyList.StoredKeysReadBack | model/channel.go:184-208 | a list joined by newlines reads back as itself exactly when it is storable |
| KeyList.KeysAre | model/channel.go:184-208 | the elements of a text that, trimmed, begins with a bracket and parses as an array; the lines of any other |
| KeyList.EmptyFirstKeyIsLost | model/channel.go:184-208 | a list that does not: its empty first key is lost |
| KeyList.RewrittenContents | controller/channel.go:1948-1966 | a deletion leaves exactly the wanted entries if and only if their keys are storable |
| MultiKey.ActionRefines | controller/channel.go:1739-2042 | each action acts on the list of (key, status, time, reason) entries as update, map, remove-at or filter, exactly unless a deletion leaves unstorable keys |
| MultiKey.ActionsActOn | controller/channel.go:1739-2042 | that list action, entry by entry: which status, time and reason each key has afterwards, and at which index the surviving keys stand |
| MultiKey.RefusedActions | controller/channel.go:1739-1980 | exactly which actions are refused |
| MultiKey.ActionKeepsCursor | controller/channel.go:1739-2042 | no action, deletions included, moves the polling cursor |
| MultiKey.RunRefines | controller/channel.go:1739-2042 | a whole sequence of actions stays in step with that list if and only if no deletion in it leaves unstorable keys |
| MultiKey.AfterIsOk | controller/channel.go:1739-2042 | after any action the recorded size is the counted one and no status lies at or beyond it |
| MultiKey.DeletingAllDisabledReenablesThem | controller/channel.go:1975-2027 | deleting the automatically disabled keys when all are such deletes none and enables all |
| MultiKey.Channel.Update | model/channel.go:691-737 | size recomputed from the new or else the stored key text, statuses beyond it dropped, an empty key not written |
| MultiKey.Channel.Manage | controller/channel.go:1623-2042 | the switch over actions has on the stored row the effect that the refinement is proved of |
| MultiKey.Channel.DisableAll | controller/channel.go:1848-1893 | carried out exactly when some key is enabled, turning only enabled keys off |
| MultiKey.Channel.DeleteKey | controller/channel.go:1895-1973 | removes one key and re-indexes the rest; refused out of range and for the last key |
| MultiKey.Channel.DeleteDisabledKeys | controller/channel.go:1975-2042 | removes the automatically disabled keys; refused exactly when there is none |
| MultiKey.DropKey | controller/channel.go:1913-1946 | the re-indexing loop yields exactly the sparse maps of the list without that entry |
| MultiKey.DropDisabled | controller/channel.go:1976-2012 | likewise for the list without the automatically disabled entries |
| MultiKey.PruneStatuses | model/channel.go:721-729 | exactly the statuses at or beyond the size are dropped |
| MultiKey.Channel.NextEnabledKey | model/channel.go:210-292 | an enabled key in every mode, nothing exactly when none is enabled; in polling mode the first enabled index from the cursor on, which moves past it; in random mode the key with as many enabled ones before it as the draw modulo their number; otherwise the first enabled one |
| KeyRotation.EveryEnabledKeyIsDrawn | model/channel.go:252-255 | every enabled key is picked by a draw below their number, and that draw picks no other |
| MultiKey.Channel.Poll | model/channel.go:237-292 | a series of polling calls picks what the rotation theorems say, from any stored cursor |
| KeyRotation.WindowIsDistinct | model/channel.go:262-288 | with e keys enabled, any e consecutive calls pick different keys, from any cursor including an out-of-range one |
| KeyRotation.WindowCovers | model/channel.go:262-288 | and together they pick every enabled key and no other |
| KeyRotation.CallIsNext | model/channel.go:274-284 | the index picked is the only first enabled one from the cursor, going round |
| KeyRotation.FindFrom | model/channel.go:269-284 | the search loop finds it |
| WorkerPool.RunKeepsInv | controller/channel-test.go:935-1023 | in every interleaving each job is with one worker or collected once, none is lost unless cancelled, sums and reports are up to date |
| WorkerPool.NoChannelRunsTwice | controller/channel-test.go:960-979 | no channel is run twice, and only eligible ones are run |
| WorkerPool.InFlightIsBounded | controller/channel-test.go:951-957 | there are exactly as many workers as the smaller of concurrency and number of channels, and never more runs in flight than either |
| WorkerPool.UncancelledOutcome | controller/channel-test.go:1008-1023 | without cancellation the summary is the sum over all eligible channels and the reports are 0, 1, ..., total, whatever the schedule |
| WorkerPool.UncancelledNumbers | controller/channel-test.go:1008-1016 | each of the five numbers of that summary is the sum of that number over the eligible channels |
| WorkerPool.NothingStartsAfterCancel | controller/channel-test.go:973-1021 | once cancelled, no further run is started and no progress reported |
| WorkerPool.WorkersPause | controller/channel-test.go:984-991 | a worker that handed in a result pauses exactly when there is a request interval |
| WorkerPool.OutcomeSoFar | controller/channel-test.go:1008-1023 | at any moment, cancelled or not, the summary is the sum over distinct channels each run to its end, and reports count up from 0 |
| WorkerPool.SomeoneCanMove | controller/channel-test.go:957-1006 | until the reducer is done some goroutine can move without a cancellation: no deadlock |
| WorkerPool.RunsAreBounded | controller/channel-test.go:957-1006 | no run is longer than a fixed bound, so the pool always drains |
| ModelNames.NormalizeModelNames | controller/channel_upstream_update.go:98-103 | the loop computes the normal form that the laws are proved of |
| ModelNames.NormalizeIsClean | controller/channel_upstream_update.go:98-103 | a normalised list is trimmed, without blanks and without repetition |
| ModelNames.NormalizeMember | controller/channel_upstream_update.go:98-103 | it holds exactly the trimmed names that are not blank |
| ModelNames.NormalizeConcat | controller/channel_upstream_update.go:98-119 | normalising one list after another is merging them: first occurrences win, in order |
| ModelNames.MergeModelNames | controller/channel_upstream_update.go:105-119 | the merge loop appends exactly the new names, in order |
| ModelNames.ApplySelectedMember | controller/channel_upstream_update.go:143-148 | a model is kept exactly when it is added, or was there and is not removed: adding wins |
| ModelNames.ModelsReadBack | model/channel.go:303-324 | the stored text reads back as the list it was joined from exactly when no name holds a comma |
| UpstreamSync.PendingExactly | controller/channel_upstream_update.go:177-236 | exactly what is pending; sources of a redirection are never to be removed, its targets and ignored names never to be added |
| UpstreamSync.RuleIgnores | controller/channel_upstream_update.go:214-220 | a name `regex:` and a body ignores exactly what the body, trimmed, matches; any other name just itself |
| UpstreamSync.ListIgnores | controller/channel_upstream_update.go:214-220 | a list ignores what any of its names does |
| UpstreamSync.GrantedExactly | controller/channel_upstream_update.go:979-984 | a name is added, or ignored, exactly when it is selected for that and pending; removed exactly when selected, pending for removal and not added |
| UpstreamSync.GrantedArePending | controller/channel_upstream_update.go:979-988 | on a settled channel such names satisfy the conditions of being pending |
| UpstreamSync.UnselectedStays | controller/channel_upstream_update.go:986-1002 | from any state, a stored model that was not selected for removal stays |
| UpstreamSync.NewIsSelected | controller/channel_upstream_update.go:986-1002 | and whatever model is new is read from a name that was selected for adding and pending |
| UpstreamSync.NextModelsMember | controller/channel_upstream_update.go:989-991 | the models after applying, name by name |
| UpstreamSync.ApplySettles | controller/channel_upstream_update.go:965-1019 | after applying any selection to a settled channel the stored remainder is exactly what a new detection finds, if and only if the choice is heeded (each candidate name is a model or ignored afterwards just when it was ignored or is chosen) and the added names read back as no stray models |
| UpstreamSync.SettlesWithoutRules | controller/channel_upstream_update.go:965-1019 | if no selected name begins with `regex:`, exactly when no added name holds a comma |
| UpstreamSync.SettlesIfRulesStay | controller/channel_upstream_update.go:965-1019 | for any selection that adds no comma, rules among the added and the ignored names included: exactly when the chosen names that are not added cover, of what is pending and not added, just themselves, and whatever was ignored stays ignored without the rules that are added |
| UpstreamSync.RulesStayUnlessAdded | controller/channel_upstream_update.go:1005-1008 | if no added name is a rule, whatever was ignored stays ignored |
| UpstreamSync.RulesSettleIfTheyCoverThemselves | controller/channel_upstream_update.go:210-223 | if no added name holds a comma or is a rule, exactly when the chosen names to ignore, read as rules, cover of what is pending just the chosen names |
| UpstreamSync.CommaUnsettles | controller/channel_upstream_update.go:965-1019 | an added name with a comma is found missing again, unless a chosen rule covers it |
| UpstreamSync.ModelsAfter | controller/channel_upstream_update.go:989-1005 | the stored models read back as those that stay, followed by whatever else the added names read back as |
| UpstreamSync.ApplyingEverythingConverges | controller/channel_upstream_update.go:1038-1075 | applying everything pending leaves nothing pending, if and only if no name to add holds a comma and whatever was ignored stays ignored without the rules that are themselves added |
| UpstreamSync.SyncedChannel.Apply | controller/channel_upstream_update.go:965-1019 | the method's whole effect on the stored lists: no model goes or comes that was not selected, and a lane reference leaves everything unchanged |
| UpstreamSync.SyncedChannel.Synchronise | controller/channel_upstream_update.go:1038-1075 | detecting, applying everything and detecting again finds nothing exactly under that condition, unless a lane refers to a removed model |
| HourlyStats.RunConserves | model/pbr_request_log.go:234-308 | in every interleaving of writers, index plus upserts to come plus upserts that failed is what the log holds, for any choice of slots of a dimension |
| HourlyStats.IndexIsLog | model/pbr_request_log.go:263-308 | once the writers are done the index agrees with the log on every such sum |
| StatsColumns.RowColumns | model/pbr_request_log.go:263-308 | once the writers are done, each column of a row is the count, the number of successes, or the sum of prompt tokens, completion tokens or costs of exactly the entries whose second lies in its hour and whose own field is its key |
| HourlyStats.EntryHasRow | model/pbr_request_log.go:281-284 | each entry has a row in every dimension in which its key is not blank |
| HourlyStats.IndexQueryIsDetailQuery | model/pbr_request_log.go:448-574 | the index query over any window, by hour or day, is the log query over the seconds the window covers: whole buckets at its start, whole hours at its end |
| StatsColumns.IndexQueryColumns | model/pbr_request_log.go:529-574 | each column of an index query is that count or sum over the entries of the bucket and key whose bucket is not before that of `from` and whose hour begins before `until` |
| StatsColumns.DetailQueryColumns | model/pbr_request_log.go:448-512 | each column of a log query is that over the entries within [from, until] |
| HourlyStats.HourlyQueryIsDetailQuery | model/pbr_request_log.go:448-574 | so for hour-aligned bounds the hourly query over [from, until) is the log query over [from, until - 1] |
| HourlyStats.AdjacentWindowsAdd | model/pbr_request_log.go:529-574 | adjacent hour-aligned windows add up, group by group |
| HourlyStats.HourSelectedIffItMeetsWindow | model/pbr_request_log.go:557-566 | an hour is selected exactly when some second of it lies in the window |
| HourlyStats.UpsertAllAdds | model/pbr_request_log.go:263-308 | recording an entry changes exactly the sums its slots belong to |
| StatsColumns.StatsTable.UpsertHourlyStat | model/pbr_request_log.go:263-308 | the loop over dimensions, in whatever order the map is visited, adds the entry to each column of exactly the slots it belongs to, and changes no other |
| StatsBackfill.BackfillExactIffUnambiguous | model/pbr_request_log.go:613-679 | where SQL and Go agree on blank names, filling an empty dimension is exact if and only if no two entries of an hour spell one key in two ways |
| StatsBackfill.BackfillExactIffBlanksAgree | model/pbr_request_log.go:649-654 | where every key is spelled in one way only, it is exact if and only if SQL and Go agree on blank names |
| StatsBackfill.AmbiguousNamesAreInexact | model/pbr_request_log.go:659-665 | two entries whose names spell one key in two ways, for which it is not exact in any order of the scan |
| StatsBackfill.OddBlankGetsRow | model/pbr_request_log.go:649-654 | a name of white space other than spaces gets a row that live recording skips |
| StatsBackfill.BackfillTwice | model/pbr_request_log.go:659-674 | running it again changes nothing |
| StatsBackfill.Database.Backfill | model/pbr_request_log.go:613-679 | done once: not when marked, not on an empty log, and marked after |
| StatsRace.ExactIffNothingWasPending | model/pbr_request_log.go:613-679 | in every interleaving of writers with the scan, the inserts and restarts, once the writers are done a slot holds the truth if and only if nothing was pending for it at the scan of the row inserted there, or, where none was inserted, no entry from before the dimension belongs to it |
| StatsRace.BackfillIsOffBy | model/pbr_request_log.go:659-674 | an inserted row exceeds the truth by exactly what was pending at its scan; any other row falls short by exactly the entries from before the dimension |
| StatsRace.BackfillCountsTwice | model/pbr_request_log.go:659-674 | a schedule in which one entry ends up counted twice |
| StatsRace.FinishedInsertsNothing | model/pbr_request_log.go:617-621 | once it is marked as done the backfill inserts nothing more |
| OvertakenCalls.BoundedIffWithinSpan | middleware/pbr_client_auth.go:113-144 | for every limit, cap, lag of clock values and width: in every run no stretch of that many seconds holds more admissions than the limit, if and only if the width is at most 60 seconds less the lag, or at most 60 for a limit of one without a cap |
| OvertakenCalls.WindowBound | middleware/pbr_client_auth.go:113-144 | so 60 seconds hold no more than the limit in every run if and only if no call is overtaken or the limit is one without a cap |
| OvertakenCalls.OvertakenSlipsThrough | middleware/pbr_client_auth.go:114-140 | for every limit of two or more, a schedule in which a later call empties the window for one that it overtook |
| OvertakenCalls.RefusedCallForgets | middleware/pbr_client_auth.go:114-140 | for a limit of one and every cap, a schedule in which a call that the cap refuses does so |
| KeyLimiter.CheckIsExact | middleware/pbr_client_auth.go:118-126 | in every run, overtaken calls or not, the window lets a call through exactly when fewer calls than the limit were admitted that neither it nor any call since finds a minute old |
| KeyLimiter.CheckInOrder | middleware/pbr_client_auth.go:118-126 | for a call that was not overtaken: exactly when fewer than the limit were admitted in the last minute |
| KeyLimiter.InflightIsExact | middleware/pbr_client_auth.go:113-152 | with clock values in any order, calls in flight are those admitted and not done, and never exceed the cap |
| KeyLimiter.RefusalCostsNothing | middleware/pbr_client_auth.go:107-144 | after a refusal a later call, whatever was done in between, gets the state and answer it would have got without it, if and only if it finds no time within the last minute that the refused call found older; so does every call that was not overtaken |
| KeyLimiter.RefusalForgets | middleware/pbr_client_auth.go:118-138 | a refused call without which an overtaken one would be refused too, and after which it is admitted |
| KeyLimiter.WaitIsExact | middleware/pbr_client_auth.go:114-133 | in any state and at any clock value the advised wait is at least a second, above a minute exactly when the first time in the window is later than the call's, enough exactly when fewer times than the limit are later than the first, and no shorter one is enough exactly when as many as the limit are not earlier |
| KeyLimiter.LoweredLimitNeedsLonger | middleware/pbr_client_auth.go:118-133 | a limit lowered to 1 with two calls in the window, for which the advised wait is not enough |
| KeyLimiter.AdvisedWaitIsEnough | middleware/pbr_client_auth.go:113-133 | in every run with fixed limits, overtaken calls or not, the advised wait is enough and at most a minute and the lag, and no shorter one is enough exactly when no time in the window is earlier than the first |
| KeyLimiter.AdvisedWaitIsLeast | middleware/pbr_client_auth.go:113-133 | without overtaken calls it is the least wait that lets a call through, and at most a minute |
| OvertakenCalls.OvertakenWaitIsTooLong | middleware/pbr_client_auth.go:127-133 | a run with an overtaken call after which a shorter wait would do |
| OvertakenCalls.OvertakenCallWaitsLong | middleware/pbr_client_auth.go:114-131 | a limiter's first call and one that it overtook, which is told to wait a minute and the lag |
| KeyLimiter.Limiter.Acquire | middleware/pbr_client_auth.go:113-144 | the in-place filter and both checks compute the step that the run theorems are about |
| KeyLimiter.Registry.LimiterFor | middleware/pbr_client_auth.go:85-94 | the same limiter object for a key until it is dropped |
| MemoryLimiter.RequestIsExact | common/rate-limit.go:45-70 | with a duration of at most the expiration and a second, or no sweeps, a request in any interleaving with sweeps is admitted exactly when the one that many admissions ago is at least the duration old |
| MemoryLimiter.SpacedIffLimitsOk | common/rate-limit.go:28-70 | that condition holds if and only if in every run an admission and the one that many later are at least the duration apart |
| MemoryLimiter.SweepForgets | common/rate-limit.go:28-42 | for every limit, when the condition fails, a burst, a sweep and one more request are admitted too close together |
| MemoryLimiter.InMemoryRateLimiter.Request | common/rate-limit.go:45-70 | one key's queue is updated as the run theorems say, all others stay |
| MemoryLimiter.InMemoryRateLimiter.ClearExpiredItems | common/rate-limit.go:28-42 | every key's queue is swept, whatever the order |
| MemberMigration.MappingKeyForValue | model/lane_member_model_migration.go:148-159 | the reverse look-up yields the first name in string order, in whatever order the mapping is visited |
| MemberMigration.FirstKeyIsUnique | model/lane_member_model_migration.go:148-159 | so its answer is unique |
| NameOrder.LessExactly | model/lane_member_model_migration.go:154-156 | string order: a proper prefix comes first, otherwise the first difference decides |
| MemberMigration.MigrationPreserves | model/lane_member_model_migration.go:16-26 | a migrated member resolves to its former upstream name exactly unless the value is a mapped name that nothing is mapped to |
| MemberMigration.CollidingMemberChanges | model/lane_member_model_migration.go:16-26 | the member that does not: it resolved to `a`, and after the migration to what `a` is mapped to |
| MemberMigration.RewrittenPreserves | model/lane_member_model_migration.go:85-119 | the same of the rows that the backfill writes |
| MemberMigration.FormerLabelFindsMember | model/lane_member_model_migration.go:163-214 | a label of channel and former upstream name still finds its member exactly when the channel's name is readable in it |
| MemberMigration.SlashedLabelIsLost | model/lane_member_model_migration.go:163-214 | a channel name with a slash, whose member's label does not name the member |
| MemberMigration.Lane.Backfill | model/lane_member_model_migration.go:85-119 | every member is rewritten, and only in its model |
| MemberMigration.Lane.RewriteActiveMember | model/lane_member_model_migration.go:163-214 | the label becomes that of the first member it names, or stays |
| MemberMigration.LabelSpells | model/lane_member_model_migration.go:196-199 | that label, cut at its first slash, is the name of the member's channel and the member's stored model |
| LaneCleanup.LaneRefs | model/lane.go:391-428 | the ascending list of exactly the lanes named by a removed model in which the channel has a member |
| LaneCleanup.HitExactly | model/lane.go:391-428 | a lane is hit exactly when a removed name, trimmed, is its own, and the channel has a member in it |
| LaneCleanup.CleanUpIsExact | model/lane.go:457-484 | exactly the channel's members in those lanes go, exactly the lanes this emptied go, and nothing else changes |
| LaneCleanup.GuardIsSatisfied | model/lane.go:385-484 | after the clean-up the guard finds nothing |
| LaneCleanup.LaneTables.CleanupForRemovedModels | model/lane.go:457-484 | the loop has that effect, and its two results, both ascending, part the guard's list into lanes kept and deleted |
| LaneCleanup.OrphanCleanUpIsExact | model/lane.go:489-550 | exactly the members of missing channels go, and a lane goes exactly when all its members, and at least one, were such |
| LaneCleanup.OrphanCleanUpTwice | model/lane.go:489-550 | cleaning twice is cleaning once |
| LaneCleanup.LaneTables.CleanupOrphans | model/lane.go:489-550 | the loop has that effect and reports the lanes kept and deleted in ascending order |
| LaneResolution.ChainIsOrdered | model/lane.go:706-737 | a lane's chain is its rows, every one once, by priority descending and id ascending |
| LaneResolution.MemberShowsRow | model/lane.go:706-768 | each member of the chain shows a row of the lane field by field, its channel's name and state, and the name its model is mapped to |
| LaneResolution.NameResolves | model/lane.go:670-705 | a lane's own name resolves to it, setting by setting and with nobody pinned, exactly while it is enabled |
| LaneResolution.AliasResolves | model/lane.go:333-346 | a name without a lane resolves to the lane of the alias's first member, which is pinned, exactly while that lane is enabled |
| LaneResolution.UnknownResolvesToNothing | model/lane.go:670-703 | a blank name, or one with neither lane nor alias, resolves to nothing |
| LaneResolution.MembersForLane | model/lane.go:706-737 | the loop over a lane's rows yields that chain |
| LaneResolution.FallbackNeverOverrides | model/lane.go:649-668 | the normalised name is tried exactly when the name has no enabled lane, and the requested name is kept |
| LaneResolution.DisplayIsRunTimeIfEnabled | model/lane.go:820-881 | lane names being unique, what is shown for a disabled lane is what run-time resolution would give if it were enabled, if and only if the normalised name resolves to no enabled lane; otherwise that lane is shown instead |
| LaneResolution.DisabledLaneDisappears | model/lane.go:820-842 | a store in which the disabled lane is not shown |
| LaneResolution.SavedSuggestionResolves | model/lane.go:774-810 | saving the suggested chain and resolving it gives the candidates in the order of their ids with the same upstream names |
| LaneResolution.SuggestedExactly | model/lane.go:774-810 | a channel is suggested exactly when it is enabled and declares the model or maps it to a name that is not blank, with these fields |
| LaneResolution.DisplaySuggests | model/lane.go:820-848 | a name that resolves to nothing and has no lane shows its suggestions |
| LockOrder.OperationsAreOrdered | model/channel_cache.go:20-148 | every operation takes each lock only while it holds locks of lower rank |
| LockOrder.CacheOperationsTake | model/channel_cache.go:20-148 | which locks the cache operations take, in order: the channel lock is released before prices are invalidated |
| LockOrder.PricingOperationsTake | model/pricing.go:62-167 | a refresh holds both pricing locks, and looks again under the first whether it is needed |
| LockOrder.ChannelOperationsTake | model/channel.go:872-900 | polling, changes of status and key management hold the channel's own lock, a change of status the status lock around it |
| LockOrder.CatalogueOperationsTake | model/model_pricing_config.go:300-320 | saving prices and deleting models hold their mutation locks around the refresh |
| LockOrder.LocksExclude | model/pricing.go:62-167 | in every reachable state a lock held for writing is held by one thread alone |
| LockOrder.NoDeadlock | model/pricing.go:62-167 | any number of threads running any of the operations: while some thread is not done, some thread can move |
| LockOrder.RunsEnd | model/pricing.go:62-167 | every step brings the threads nearer to the end |
| LockOrder.CarelessOrderDeadlocks | model/channel_cache.go:55-60 | invalidating prices while still holding the channel lock can leave two threads waiting for each other |

## Left out

- TaskProtocol.RunKeepsInv: a claim starts with an existing row, a lease not already over and at most one claim per runner in flight; a renewal's new end is not before its clock value; update, renew and finish are called only by the runner whose claim returned true; a failed statement has no effect; clocks of all runners agree; row and task identifiers are identified; updated_at and payload are not modelled.
- TaskGuarantees.OutForever: speaks of the runner's own task; a runner that is out may still win a claim of another one.
- KeyList.StoredKeysReadBack: JSON array parsing is a library's; all that is assumed of it is that elements, commas and brackets fit in the text.
- MultiKey.ActionRefines: the channel is read and written without another writer in between, and is in multi-key mode; handlerMultiKeyUpdate, paging of key status and cached key lists are not modelled.
- KeyRotation.WindowIsDistinct: holds with the memory cache off, where the cursor is written back on every call; with the cache on it is not written back there.
- WorkerPool.UncancelledOutcome: what `run` does inside is a function of the channel, which is no restriction since no channel runs twice.
- UpstreamSync.ApplySettles: the model mapping is taken as already normalised and regular expressions are any predicate; automatic synchronisation is not modelled.
- HourlyStats.IndexQueryIsDetailQuery: the log query of the source offers four of the five dimensions, the lemma speaks of all five; timestamps are not negative, costs are exact numbers instead of floating point, and the order of returned groups is not modelled; pruning the log is not modelled.
- StatsBackfill.BackfillExactIffUnambiguous: says nothing of a log that has both keys spelled in two ways and names on which SQL and Go disagree; there the totals depend on the order of the scan and may agree by coincidence.
- StatsRace.ExactIffNothingWasPending: speaks of logs with neither of the two.
- OvertakenCalls.BoundedIffWithinSpan: with limits that stay the same during the run, and clock values in seconds that never lag more than a fixed amount.
- MemoryLimiter.RequestIsExact: for a limit of at least 0 (a negative one panics when the first queue is made), 0 acting as 1; with the duration condition that MemoryLimiter.SpacedIffLimitsOk shows to be exact.
- LaneResolution.ChainIsOrdered: the name normaliser, parsing of lane settings and database errors are not modelled.
- LockOrder.OperationsAreOrdered: locks of the option map, of ratio settings and of event callbacks are not part of this model.
- MemberMigration.Lane.Backfill: adding, renaming and dropping columns is not modelled.
- Routing with its circuit breaker and cooldown (internal/route) is not part of this model.
- HTTP handlers, audit writing, logging, translation, Redis, provider adapters and billing are not part of this model.
- Session, key, proxy and address checks are not part of this model.
- ListModelSummaries, lane policy checks, configuration defaults and page arithmetic would only add easy members.
