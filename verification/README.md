# Verified models of gitrakz

Dafny models of the four parts of gitrakz whose behaviour is hard to see from any one function, with the
properties they are built for proved over all inputs, all interleavings or all runs.

| part | modules |
|---|---|
| Service manager and application | `DependencyOrder`, `ManagerProtocol`, `ManagerInvariant`, `ManagerTheorems`, `ManagerShutdown`, `ManagerFailure`, `ManagerOutcomes`, `AppProtocol`, `AppShutdown`, `JointProtocol`, `JointHooks`, `JointShutdown` |
| Work-time pipeline | `Types`, `KeyOrder`, `Sessionize`, `OwnerOrder`, `OffTime`, `SplitByActiveDays`, `Rate`, `GroupBy`, `Aggregate`, `Layout`, `Templates`, `TimesheetOrder` |
| Sync, paging, cache | `Sync`, `LateEvents`, `SyncController`, `Paging`, `DescribeWork`, `CacheProtocol` |
| Markdown | `Inline`, `InlinePatterns`, `InlineRendering`, `Markdown`, `LinePatterns`, `MarkdownRendering` |
| Shared | `Common`, `Strings`, `Filtering`, `MapSums`, `StopCallers` |

`dafny verify dfyconfig.toml` checks everything.

## How it is modelled

- **Start order.** `buildDepGraph` and `topoSort` are loops over mutable maps and a queue, as in the source:
  a multigraph with one edge per mention, degrees that are counted down to zero. The specification is
  independent of them: a cycle is a closed chain, a service's depth is the length of its longest chain.
- **Protocols.** `ServiceManager.Run`, its service goroutines, every caller of `Stop`, the once-body and the
  goroutines that call `service.Stop` are program counters of one state; each atomic action of one of them is a
  step, and theorems hold in every state that any sequence of steps reaches. The numbers of services and of
  `Stop` callers are not bounded. The same holds for `App.Run` with its manager goroutine. The two are proved on
  their own and then put together: in the joint system the application's goroutine takes the steps of the
  manager's `Run`, its once-body calls the manager's `Stop`, and its context is the parent of the manager's;
  each side is shown to be a run of its own protocol. Step relations also model the sync controller, whose syncs
  advance one repository at a time between the steps of the other callers, and describe-work runs over one
  cache, where reading the cache, asking and storing are separate steps.
- **Pipeline.** The steps are methods that loop over a mutable `State` and reassign its fields. Their
  specifications are counting second by second, connected components of closeness, and sums over buckets.
- **Failures** of the client, the store, the cache or the LLM are inputs, so every theorem covers all of them.
  A failed batch of upserts may leave any part of the batch behind, and a failed cursor write may have
  happened all the same.
- **Markdown.** The parser's index loop, with its pending paragraph and its nested loops for fences and
  lists, refines a recursive grammar of pieces; the grammar is proved lossless and unambiguous. The search for
  each pattern is proved to find exactly what the pattern says, and blocks and inline tokens that are written
  out as markdown are read back unchanged.

## Where the code does not do what is said or intended

Each of these has a concrete input and the exact condition, proved for all inputs.

- `OnPostStop` hooks are documented to run after all services stop (`internal/app/app.go:62-63`). A caller of
  `App.Stop` that gets through before `Run` has launched the manager's goroutine runs them before any service
  has started (`AppProtocol.EarlyStopReachesIt`, `AppProtocol.HookBeforeManager`). They keep their promise in
  every continuation exactly when `Run` had launched that goroutine by the time the once-body begins to wait
  (`AppProtocol.HooksFollowManagerIffLaunched`). Together with the manager the same condition decides whether
  hooks can find a service goroutine live (`JointHooks.HooksFollowServicesIffLaunched`); where it fails, `Run`
  can have spawned its first service when the first hook is due (`JointHooks.HooksBeforeServices`, after
  `JointHooks.EarlyStopReachesIt`).
- In the same way a `ServiceManager.Stop` that is through before `Run` starts uses up the `sync.Once`
  (`ManagerTheorems.EarlyStopReachesIt` gives the run): nothing that `Run` then starts is ever asked to stop
  (`ManagerTheorems.EarlyStopIsSpent`). The services are asked, all of them, exactly when `Run` is behind its
  start lock at the moment the once-body takes it (`ManagerTheorems.StopWorksIffPastStart`).
- The first failure that is not allowed is documented to stop everything
  (`internal/pkg/service-manager/service_manager.go:524-526`). While `Run` waits for a service to signal readiness
  it does not look at failures: a service that fails for good before it signals leaves `Run` waiting with nothing
  else to do (`ManagerFailure.FailureDuringStartEndsNothing`). A reported failure ends `Run` in every continuation
  that cannot go on exactly when the context is cancelled or a caller of `Stop` is about to cancel it, or every
  service that signals readiness has signalled (`ManagerFailure.FailureEndsRunIffUnhindered`).
- `groupByOwner` is documented to keep the output deterministic by listing owners in the order of their first
  events (`internal/pkg/transform/sessionize/sessionize.go:93-95`). The sort before it is not stable, so the
  events determine that order if and only if no two owners have the same first time
  (`OwnerOrder.OwnerOrderDeterminedIffNoTie`; `OwnerOrder.TwoOwnersTied` is such a timeline). Each owner's own
  sessions are always determined (`Sessionize.OrderDoesNotMatter`).
- Off-hours windows that overlap are subtracted once per window, so an hour declared twice also eats the
  lead-in (`OffTime.OverlappingWindowsLoseTime`). The duration is exact if and only if no second of the session
  is in two windows (`OffTime.ExactIffNotDoubled`).
- The processing version hashes `PromptVersion + "|" + Model`, so two different pairs share a version as soon as
  one of the texts contains the separator (`DescribeWork.BarSharesVersion`;
  `DescribeWork.VersionUniqueIffNoBar`, both directions).
- A cache entry can change under a finished run: reading the cache, asking the LLM and storing are not one
  step, and a store replaces what is there (`internal/pkg/db/store.go:313-323`). With two runs that overlap on
  one input the second replaces the first one's entry, and a repeat of the first gives the other's text
  (`CacheProtocol.OverlappingRunsReplace`). An entry changes at exactly the writes of another text by a run whose
  own read missed before the entry was written (`CacheProtocol.EntryChangesIffLateWrite`); it stays for good
  exactly when no run is between such a read and such a write (`CacheProtocol.EntryStaysIffNotThreatened`); and
  every repeat is identical and asks nothing exactly when all its entries are the texts and stay so
  (`CacheProtocol.AlwaysRepeatsIffSettled`).
- An event that appears remotely with a time before the cursor is missed. `LateEvents.LateEventIsMissed` gives
  the run from an empty store; an event that is not stored is never picked up, in any continuation, exactly when
  it is older than a cursor of its repository (`LateEvents.NeverPickedUpIffBehind`). That no such event appears
  is the assumption under which `Sync.CursorsNeverLoseEvents` says that nothing is lost. An event that appears
  between a sync's listing and its writes is held against the new cursor: the sync loses nothing exactly when no
  such arrival is older than the cursor it leaves (`Sync.ArrivalsDuringSync`), and one that was not late when it
  appeared can be missed that way (`LateEvents.ArrivalDuringSyncIsMissed`).
- Reading page by page while events are being stored loses none of the events that were there at the first
  query (`Paging.NothingIsLost`) but can return one twice (`Paging.EventsCanRepeat`, with 501 events of distinct
  ids and one more stored in between). Every event is read at most once exactly when each query finds, in front
  of its own page, the rows that the query before it had there (`Paging.ReadOnceIffPagesStayPut`).
- A metric over a field that `aggregate` has summed counts it twice: one row with the value 1 shows 2
  (`Layout.AppendedSumCountsTwice`). It is right exactly when the fields differ or the sum is zero
  (`Layout.MetricAfterAggregate`); the commits-per-repo template is right because its metric is on another field.

## Model

| member | source | states |
|---|---|---|
| DependencyOrder.BuildDepGraph | internal/pkg/service-manager/service_manager.go:654-692 | the degrees count, and the adjacency lists repeat, every mention of a service that is in the process; mentions of absent services count for nothing |
| DependencyOrder.ReadOneDependency | internal/pkg/service-manager/service_manager.go:674-688 | reading one more declared dependency keeps degrees and adjacency in step with the lists read so far, and skips a name not in the process |
| DependencyOrder.DrainQueue | internal/pkg/service-manager/service_manager.go:716-734 | one pass over the queue closes exactly its outgoing edges and collects, once each, exactly the live services that this frees |
| DependencyOrder.TopoSort | internal/pkg/service-manager/service_manager.go:694-744 | fails if and only if the dependency relation has a cycle; otherwise group k lists, once each, exactly the services whose longest dependency chain has k edges, and every service is in a group |
| DependencyOrder.ResolveOrder | internal/pkg/service-manager/service_manager.go:646-652 | the same for any service map, with duplicate, absent and self-naming dependencies |
| DependencyOrder.WalkCloses | internal/pkg/service-manager/service_manager.go:739-741 | a set in which every service depends on a member contains a cycle: the pigeonhole half of the cycle check |
| DependencyOrder.StuckMeansCyclic | internal/pkg/service-manager/service_manager.go:739-741 | services left over with no free one among them form a cyclic relation |
| DependencyOrder.FullRankIsAcyclic | internal/pkg/service-manager/service_manager.go:709-743 | when the loop has grouped every service there is no cycle |
| DependencyOrder.RankIsDepth | internal/pkg/service-manager/service_manager.go:709-743 | the round in which a service is grouped is the length of its longest dependency chain |
| DependencyOrder.DependenciesStartEarlier | internal/pkg/service-manager/service_manager.go:694-744 | every dependency is in a strictly earlier group |
| DependencyOrder.LayeringIsEarliest | internal/pkg/service-manager/service_manager.go:694-744 | no assignment of stages that respects the dependencies starts any service earlier or needs fewer stages |
| DependencyOrder.LayeringIsUnique | internal/pkg/service-manager/service_manager.go:694-744 | map iteration order can only permute a group: the number of groups and what each holds are determined |
| ManagerInvariant.StepKeepsInv | internal/pkg/service-manager/service_manager.go:293-644 | every step of every goroutine keeps the invariant that ties wait group, channel, lock, once cell, recorded groups and stop calls together |
| ManagerInvariant.ReachableInv | internal/pkg/service-manager/service_manager.go:293-644 | that invariant holds in every state of every run |
| ManagerTheorems.OrderGivesConfig | internal/pkg/service-manager/service_manager.go:326-338 | whatever the order function answers is a configuration the protocol theorems apply to |
| ManagerTheorems.NoSendAfterClose | internal/pkg/service-manager/service_manager.go:312-316 | no goroutine ever sends on the closed error channel; by the time it is closed no service goroutine is left |
| ManagerTheorems.SendNeverBlocks | internal/pkg/service-manager/service_manager.go:509-540 | a failing service's send always goes through at once; a full buffer keeps what it holds and an empty one takes this failure |
| ManagerTheorems.FirstFailureWins | internal/pkg/service-manager/service_manager.go:524-531 | an error Run returns from the channel is the first failure reported; only services that may not fail and have used every retry are reported; no service runs more than MaxRetries + 1 failing times |
| ManagerTheorems.DependenciesReadyBeforeLaunch | internal/pkg/service-manager/service_manager.go:346-411 | no service is launched before all its dependencies run and, unless the context is cancelled, those that signal readiness have signalled |
| ManagerTheorems.StopIsAllOrNothing | internal/pkg/service-manager/service_manager.go:565-608 | the once-body sees no start group or all of them, never a prefix; it calls no Stop twice; when it is over, every service was asked and waited for, or none was |
| ManagerTheorems.DependentsStopFirst | internal/pkg/service-manager/service_manager.go:580-607 | a dependency's Stop is called only after every dependent's Stop has returned or timed out |
| ManagerTheorems.RunLeavesNothingBehind | internal/pkg/service-manager/service_manager.go:312-343 | when Run has returned, every launched goroutine has ended, the channel is closed, the locks are free and the context is cancelled |
| ManagerTheorems.FindingStays | internal/pkg/service-manager/service_manager.go:574-584 | once the once-body has looked for the recorded groups, no later step changes what it found |
| ManagerTheorems.LooksAtStarted | internal/pkg/service-manager/service_manager.go:346-352 | the once-body that takes the start lock finds all groups if and only if Run is behind that lock, and none otherwise |
| ManagerTheorems.StopWorksIffPastStart | internal/pkg/service-manager/service_manager.go:574-607 | for a non-empty acyclic set of services, in every continuation that finishes, all services were asked to stop and waited for if and only if Run was behind its start lock when the once-body took it; otherwise none was ever asked |
| ManagerTheorems.EarlyStopIsSpent | internal/pkg/service-manager/service_manager.go:565-585 | a Stop that is through before Run begins leaves no later call of any service's Stop |
| ManagerTheorems.EarlyStopReachesIt | internal/pkg/service-manager/service_manager.go:565-585 | one caller, six steps from the start, reaches such a state with nothing found |
| ManagerShutdown.StepUses | internal/pkg/service-manager/service_manager.go:293-644 | every step of the manager, a service or a stop, cancelled or not, uses up a bounded supply; each retry has its share |
| ManagerShutdown.StuckOnlyWaiting | internal/pkg/service-manager/service_manager.go:318-411 | no interleaving deadlocks before Run has returned, unless nothing is cancelled, no service is live, and Run waits at its select with no failure reported or for a service that has not signalled |
| ManagerShutdown.ShutdownNeverStuck | internal/pkg/service-manager/service_manager.go:312-343 | after cancellation no interleaving deadlocks before Run has returned |
| ManagerShutdown.ShutdownTerminates | internal/pkg/service-manager/service_manager.go:312-343 | every run takes a bounded number of steps beyond the environment's; where no step is left Run has returned or waits for something from outside, and after cancellation it has returned |
| ManagerFailure.FailureEndsRunIffUnhindered | internal/pkg/service-manager/service_manager.go:509-540 | a reported failure ends Run in every continuation that cannot go on if and only if the context is cancelled or about to be, or every service that signals readiness has signalled |
| ManagerFailure.FailureAfterStartEndsRun | internal/pkg/service-manager/service_manager.go:339-343 | once Run is behind its start lock a reported failure ends it in a bounded number of steps with nothing from outside |
| ManagerFailure.FailureDuringStartEndsNothing | internal/pkg/service-manager/service_manager.go:386-411 | one service that signals readiness and fails first reaches a state with its failure reported, no step left and Run still in its start loop |
| ManagerOutcomes.StepKeepsOutcomes | internal/pkg/service-manager/service_manager.go:413-540 | every step keeps what a goroutine's place says about how the service's last run ended, and every reported error the error of a last run |
| ManagerOutcomes.LeavesDoneOrReported | internal/pkg/service-manager/service_manager.go:427-470 | uncancelled, a service leaves only after a run that succeeded or with every retry used, and in the second case its last error is reported if and only if it may not fail |
| ManagerOutcomes.ExhaustedIsReported | internal/pkg/service-manager/service_manager.go:452-470 | uncancelled, a service that may not fail, has used every retry and is on its way out is reported |
| ManagerOutcomes.ResultIsTheLastError | internal/pkg/service-manager/service_manager.go:336-343 | nil means that the context is cancelled, and a failure is the error of the last run of the service it names |
| ManagerOutcomes.LastFailureEndsRun | internal/pkg/service-manager/service_manager.go:336-343 | behind the start lock and with nothing cancelled, once the last run of a service that may not fail has failed, every way to go on without help ends with Run returning the first failure reported |
| ManagerOutcomes.NoRetryAfterCancel | internal/pkg/service-manager/service_manager.go:442-512 | after cancellation a service fails at most once more, and not again once its run has ended; nothing is reported but what was on its way; a wait for a retry can end at once |
| AppProtocol.StepKeepsInv | internal/app/app.go:68-144 | every step of Run, its manager goroutine and the Stop callers keeps the invariant |
| AppProtocol.SendIsSafe | internal/app/app.go:78-90 | the channel is closed only after its one producer has gone; the producer's send never blocks and never meets a closed channel |
| AppProtocol.HooksRunInOrder | internal/app/app.go:56-66 | hooks run at most once each and in registration order; all of them have run when Run has returned |
| AppProtocol.HooksFollowManagerIffLaunched | internal/app/app.go:62-66 | post-stop hooks find the manager's goroutine gone in every continuation if and only if Run had launched it when the once-body began to wait |
| AppProtocol.HookBeforeManager | internal/app/app.go:131-141 | where it had not, two steps of the once-body run a hook with the manager still to come |
| AppProtocol.EarlyStopReachesIt | internal/app/app.go:122-144 | one early caller of Stop reaches such a state |
| AppProtocol.ErrorIsReturned | internal/app/app.go:110-119 | an error that waits for Run at its select is what Run returns in every continuation in which nobody cancels |
| AppProtocol.NilMeansCancelled | internal/app/app.go:110-119 | Run returns nil only with its context cancelled |
| AppProtocol.ShutdownNeverStuck | internal/app/app.go:68-144 | after cancellation no interleaving deadlocks before Run has returned |
| AppShutdown.StepUses | internal/app/app.go:68-144 | every step of Run, its manager goroutine, a Stop caller or the once-body uses up a bounded supply |
| AppShutdown.ShutdownTerminates | internal/app/app.go:68-144 | every run takes a bounded number of steps beyond the environment's, and after cancellation one that cannot go on has returned from Run |
| JointProtocol.StepKeepsInv | internal/app/app.go:68-144 | every step of the application with its manager is a step of each side's own protocol and keeps them tied: where the goroutine, the once-body, the context and the error are |
| JointProtocol.ReachableInv | internal/app/app.go:68-144 | so in every state the two reach together, all that is proved of each alone holds |
| JointHooks.HooksFollowServicesIffLaunched | internal/app/app.go:62-66 | with services to run, post-stop hooks find no service goroutine live in any continuation if and only if Run had launched the manager when the once-body began to wait |
| JointHooks.HooksBeforeServices | internal/app/app.go:131-141 | where it had not, a run in which the hooks are due while Run spawns its first service |
| JointHooks.EarlyStopReachesIt | internal/app/app.go:122-144 | one early caller of App.Stop, whose once-body gets through the manager's Stop, reaches such a state |
| JointShutdown.StepUses | internal/app/app.go:68-144 | every step of any goroutine of the two uses up a bounded supply |
| JointShutdown.StuckOnlyWaiting | internal/app/app.go:104-144 | no interleaving of the two deadlocks before App.Run has returned, unless nothing is cancelled and it is at its select with no error while the manager waits or has returned nil |
| JointShutdown.ShutdownTerminates | internal/app/app.go:68-144 | every run of the two takes a bounded number of steps; after cancellation one that cannot go on has returned from App.Run, and then the manager's Run has returned and no service goroutine is left |
| JointShutdown.AppReturnsFirstFailure | internal/app/app.go:104-119 | an error that App.Run returns is the first failure reported by a service that may not fail, or comes from an empty or cyclic set of services |
| JointShutdown.FailureEndsApp | internal/app/app.go:104-119 | once the manager's Run has failed, a run that cannot go on has returned from App.Run |
| JointShutdown.FirstFailureStopsEverything | internal/pkg/service-manager/service_manager.go:519-531 | after a failure reported behind the start lock, a run of the two that cannot go on has returned from App.Run, unless the manager's Run returned nil because somebody stopped it |
| Sessionize.SortByTime | internal/pkg/transform/sessionize/sessionize.go:71-78 | some rearrangement by time; ties are left open, as the library sort leaves them |
| Sessionize.GroupByOwner | internal/pkg/transform/sessionize/sessionize.go:96-111 | each owner once, in the order of their first events, with exactly that owner's events in order |
| Sessionize.SessionizeOwner | internal/pkg/transform/sessionize/sessionize.go:116-163 | the loop computes the clusters of the owner's times |
| Sessionize.Apply | internal/pkg/transform/sessionize/sessionize.go:70-91 | appends, owner by owner in an order in which a sort by time shows them, the clusters of that owner's ascending times; nothing else changes |
| Sessionize.SessionsAreComponents | internal/pkg/transform/sessionize/sessionize.go:116-147 | two times share a session if and only if a walk of steps no longer than the gap joins them, and every time is in a session |
| Sessionize.SessionSpansMembers | internal/pkg/transform/sessionize/sessionize.go:151-163 | a session starts at its least time, ends at its greatest, counts its times, and lasts from start to end plus the lead-in |
| Sessionize.EveryEventCounted | internal/pkg/transform/sessionize/sessionize.go:116-147 | the event counts of the sessions add up: none is lost or counted twice |
| Sessionize.OrderDoesNotMatter | internal/pkg/transform/sessionize/sessionize.go:70-91 | any two permutations of a timeline give every owner the same sessions, despite the unstable sort |
| OwnerOrder.AppearEarliestFirst | internal/pkg/transform/sessionize/sessionize.go:77-81 | whatever the sort does with ties, owners come out by their first times, each once, and exactly those with events |
| OwnerOrder.TieLeavesItOpen | internal/pkg/transform/sessionize/sessionize.go:77-81 | two owners with the same first time give two sorts of the same events that list the owners differently |
| OwnerOrder.TwoOwnersTied | internal/pkg/transform/sessionize/sessionize.go:77-81 | two owners with one event each at the same time are such a tie |
| OwnerOrder.OwnerOrderDeterminedIffNoTie | internal/pkg/transform/sessionize/sessionize.go:93-95 | the events determine the order of the owners if and only if no two owners have the same first time |
| OffTime.TotalOverlap | internal/pkg/transform/excludeofftime/exclude_off_time.go:126-144 | the day loop equals counting, window by window, the seconds of the interval whose time of day is in the window; wrapping and equal-ended windows, several days and times before 1970 included |
| OffTime.DayOverlap | internal/pkg/transform/excludeofftime/exclude_off_time.go:155-195 | on one day the clipped pieces are exactly the window's seconds |
| OffTime.OffSecondsSplit | internal/pkg/transform/excludeofftime/exclude_off_time.go:126-144 | splitting an interval splits its off-time |
| OffTime.OffAndOn | internal/pkg/transform/excludeofftime/exclude_off_time.go:73-97 | off seconds and seconds outside every window fill the interval if and only if none is in two windows |
| OffTime.Apply | internal/pkg/transform/excludeofftime/exclude_off_time.go:73-97 | every session's duration loses its off seconds, clamped at zero; without windows nothing changes |
| OffTime.ExactIffNotDoubled | internal/pkg/transform/excludeofftime/exclude_off_time.go:73-97 | what is left is lead-in plus the seconds outside every window if and only if no second is in two windows, or there is no lead-in and everything is off |
| OffTime.DisjointWindowsAreExact | internal/pkg/transform/excludeofftime/exclude_off_time.go:73-97 | with windows that share no minute of the day the result is exact and the clamp never cuts |
| OffTime.OverlappingWindowsLoseTime | internal/pkg/transform/excludeofftime/exclude_off_time.go:126-144 | a window declared twice takes its hour off twice |
| KeyOrder.SortedKeysUnique | internal/pkg/transform/groupby/groupby.go:100-111 | two sorted listings of the same distinct keys are equal, so map order cannot show |
| KeyOrder.TextLessIs | internal/pkg/transform/groupby/groupby.go:100-111 | text keys are in dictionary order: the smaller character at the first difference, or the end |
| KeyOrder.LessIs | internal/pkg/transform/splitbyactivedays/splitbyactivedays.go:56-79 | day keys are in the order of time |
| KeyOrder.BucketsConserve | internal/pkg/transform/groupby/groupby.go:82-114 | over keys that cover all items, the bucket sums add up to the total |
| SplitByActiveDays.Apply | internal/pkg/transform/splitbyactivedays/splitbyactivedays.go:44-79 | one row for exactly the days on which a session starts, in the order of time, with the seconds and the 3600th part of them of the sessions that start between that midnight and the next |
| SplitByActiveDays.DayRowIsItsSessions | internal/pkg/transform/splitbyactivedays/splitbyactivedays.go:48-54 | a day's row holds exactly the seconds of the sessions that start from its midnight up to the next |
| Rate.Apply | internal/pkg/transform/rate/rate.go:75-105 | every row that has hours gets them times the form's number, or times the default without a number in the form; other rows and fields stay |
| GroupBy.Apply | internal/pkg/transform/groupby/groupby.go:82-132 | one row for exactly the owners, repository names, types, branches or UTC days that occur, ascending, with the count, additions and deletions of the events that belong to it |
| GroupBy.RowTalliesOwn | internal/pkg/transform/groupby/groupby.go:117-132 | a bucket's row tallies exactly the events of that owner, repository name, type, branch or day |
| GroupBy.RowGrows | internal/pkg/transform/groupby/groupby.go:86-102 | one more event changes its bucket's row and no other |
| Aggregate.CollectFieldStats | internal/pkg/transform/aggregate/aggregate.go:103-125 | sum, count, least and greatest of the field over the rows that have it |
| Aggregate.FieldValuesOfRows | internal/pkg/transform/aggregate/aggregate.go:103-125 | the values folded are those of the rows that have the field, in order; a row without it gives none, not a zero |
| Aggregate.Apply | internal/pkg/transform/aggregate/aggregate.go:78-146 | appends one row whose single value is the sum, the mean, or a least or greatest member, and 0 without any value |
| Layout.RenderMetric | internal/pkg/engine/layout.go:151-177 | the sum of the field over every row that has it |
| Layout.AppendedSumCountsTwice | internal/pkg/engine/layout.go:170-176 | one row with the value 1 and its appended sum give a metric of 2 on the same field |
| Layout.MetricAfterAggregate | internal/pkg/engine/layout.go:170-176 | a metric after an appended sum is still the rows' own sum if and only if the fields differ or that sum is 0 |
| Templates.RunTimesheet | internal/pkg/common/templates/builtins.go:190-231 | sessions with a gap of 1800 and a lead-in of 1500 seconds, without the off-hours; one row for each active day, ascending, with its own sessions' seconds, hours and dollars; every dollar at the form's number, or none without one; and the metric is that rate times all hours |
| TimesheetOrder.TimesheetIgnoresOrder | internal/pkg/common/templates/builtins.go:190-231 | two orders of the same events give the same rows and the same dollars, even where the owners come out differently |
| Templates.DollarsAreConserved | internal/pkg/common/templates/builtins.go:205-222 | bucketing by day, rating and summing lose no session and count none twice |
| Templates.TimesheetBillsTimeOutsideOffHours | internal/pkg/common/templates/builtins.go:205-210 | with windows that do not overlap, the seconds billed are the lead-ins plus the seconds of every owner's components outside the off-hours |
| Templates.GroupRowsConserve | internal/pkg/transform/groupby/groupby.go:82-114 | whatever the key, the counts add up to the number of events and the additions to the timeline's |
| Templates.RepoBucket | internal/pkg/transform/groupby/groupby.go:86-122 | a repository name's bucket counts exactly the events with that name and sums their additions |
| Templates.RunCommitsPerRepo | internal/pkg/common/templates/builtins.go:144-184 | the count metric is the number of events although a row was appended, that row carries the timeline's additions and nothing else, and the other rows are one for every repository name with an event, ascending, with that name's own events and additions |
| Sync.LatestEventTS | internal/pkg/ghsync/ghsync.go:200-210 | the greatest of the current cursor and the event times |
| Sync.Store.UpsertEvents | internal/pkg/db/store.go:43-64 | a success leaves each id of the batch holding the last event listed for it, over what was stored, and every other id alone; a failure does that for some of the ids |
| Sync.UpsertsLast | internal/pkg/db/store.go:53-58 | the last event of an id in the batch wins over the stored one; without one the id is as before |
| Sync.SyncRepo | internal/pkg/ghsync/ghsync.go:164-196 | for every way the four calls can fail: a cursor that has moved leaves every listed event stored and none newer than it, no cursor goes back, no other repository's cursor changes, and a success reports and stores all that was listed; after a success each listed id holds the last event listed for it, and a cursor that has changed is at the newest time listed |
| Sync.Sync | internal/pkg/ghsync/ghsync.go:86-136 | repositories sync in turn, one that fails is recorded and the rest go on; scanned plus failed is the number discovered |
| Sync.FailuresAreIsolated | internal/pkg/ghsync/ghsync.go:101-135 | the result lists exactly the repositories whose own calls failed and counts every event listed for the others |
| Sync.SyncKeepsInv | internal/pkg/ghsync/ghsync.go:164-196 | whatever fails, no cursor goes back and no unstored event ends up behind a positive cursor |
| Sync.CursorsNeverLoseEvents | internal/pkg/ghsync/ghsync.go:86-210 | over any sequence of syncs, failures and new events that are not older than their cursor, cursors never decrease and every remote event older than a positive cursor is stored |
| Sync.NothingIsLostFromEmpty | internal/pkg/ghsync/ghsync.go:164-210 | from an empty store, over any run, a remote event older than a positive cursor is stored |
| Sync.ArrivalsDuringSync | internal/pkg/ghsync/ghsync.go:164-210 | events that appear between a sync's listing and its writes leave the writes as they were, and the invariant survives if and only if none of them is older than the cursor the sync leaves |
| Sync.WholeSyncIsARun | internal/pkg/ghsync/ghsync.go:86-136 | a whole sync is a run of its repositories' syncs, so what holds over runs holds of it |
| Sync.WholeSyncKeepsInv | internal/pkg/ghsync/ghsync.go:86-136 | a whole sync, whatever fails in it, moves no cursor back and leaves no unstored event behind a positive cursor |
| Sync.SuccessStoresEverything | internal/pkg/ghsync/ghsync.go:164-196 | a successful sync of a repository stores all of its remote events |
| Sync.PickedUpIffNotOlder | internal/pkg/ghsync/ghsync.go:38-45 | one successful sync stores an event that was not stored yet if and only if there is no cursor or the event is not older than it |
| LateEvents.MissedForGood | internal/pkg/ghsync/ghsync.go:164-196 | an unstored event older than a positive cursor stays so over any sequence of syncs, failures and new events of any time |
| LateEvents.NeverPickedUpIffBehind | internal/pkg/ghsync/ghsync.go:164-210 | an unstored remote event is never picked up in any continuation if and only if it is older than a positive cursor of its repository |
| LateEvents.LateEventIsMissed | internal/pkg/ghsync/ghsync.go:164-210 | from an empty store, one event, its sync and an older event of the same repository reach such a world |
| LateEvents.ArrivalDuringSyncIsMissed | internal/pkg/ghsync/ghsync.go:164-210 | an event that appears between listing and writing of a first sync, with no cursor to be behind, ends up missed |
| SyncController.StepKeepsInv | internal/pkg/services/http-server/sync_controller.go:44-77 | every step of every caller keeps the slot exclusive and the running sync undisturbed |
| SyncController.OneSyncAtATime | internal/pkg/services/http-server/sync_controller.go:44-77 | at most one caller is past the check, and the flag is up exactly while one is |
| SyncController.RejectedIffBusy | internal/pkg/services/http-server/sync_controller.go:47-58 | a caller is rejected if and only if another holds the slot, and then changes nothing |
| SyncController.RecordedSyncsAreWhole | internal/pkg/services/http-server/sync_controller.go:66-76 | every recorded result is that of an undisturbed sync from the store it began on, with scanned plus failed equal to the number of repositories |
| SyncController.AloneIsSync | internal/pkg/services/http-server/sync_controller.go:44-77 | a caller whom nobody disturbs syncs all the repositories it finds, leaves the result as the last one and gives the slot back |
| Paging.QueryTimeline | internal/pkg/db/store.go:69-118 | the page's slice of the matching rows; a further page is reported if and only if a matching row lies beyond this one |
| Paging.MatchingIsExact | internal/pkg/db/store.go:73-95 | the matching rows are exactly those that meet every filter given, each as often as stored, newest first |
| Paging.EachFieldNarrows | internal/pkg/db/store.go:73-95 | each field of the filter by itself narrows what the others leave, to its owner, repository, type or inclusive bound, and one that is not set does not |
| Paging.NoFilterKeepsAll | internal/pkg/db/store.go:73-95 | an empty filter matches every row |
| Paging.AdjacentRangesSplit | internal/pkg/db/store.go:89-95 | with both time bounds inclusive, two ranges that meet share out what the whole range holds, with no event in both |
| Paging.QueryFullTimeline | internal/pkg/http/server/server.go:129-154 | the whole matching sequence, after exactly one query or the number of rows over 500 rounded up, unless one of those queries fails |
| Paging.NothingIsLost | internal/pkg/http/server/server.go:138-151 | events stored between the queries never push one that was there past the reader |
| Paging.EventsCanRepeat | internal/pkg/http/server/server.go:138-151 | with rows of distinct ids, newest first, one stored between two queries brings another back on the second page |
| Paging.ReadOnceIffPagesStayPut | internal/pkg/http/server/server.go:138-151 | with distinct rows no event is read on two pages if and only if each query finds in front of its page exactly the rows the query before had there |
| DescribeWork.GroupCommits | internal/pkg/transform/describework/describework.go:212-252 | by day, one group for each UTC day with a commit, ascending, holding exactly that day's commits in timeline order; by repository, one for each repository name with a commit, holding exactly its commits |
| DescribeWork.GroupsAreUnique | internal/pkg/transform/describework/describework.go:212-240 | the groups do not depend on map order |
| DescribeWork.BuildInput | internal/pkg/transform/describework/describework.go:257-296 | fails if and only if some thin commit's diff fails; otherwise one segment for each commit, in order, the title with the start of the diff for thin ones, joined by line breaks |
| DescribeWork.JunkIsSpelled | internal/pkg/transform/describework/describework.go:56-58 | a title without a signal is one of four words in any case, or nothing but dots |
| DescribeWork.BytesOfText | internal/pkg/transform/describework/describework.go:290-293 | a title's length counts bytes: from one to four for each character, one exactly for ASCII |
| DescribeWork.CacheKeyInjective | internal/pkg/transform/describework/describework.go:301-309 | with a collision-free hex hash two cache keys are equal if and only if version and input are |
| DescribeWork.BarSharesVersion | internal/pkg/transform/describework/describework.go:149-151 | two different pairs share a version whatever the hash |
| DescribeWork.VersionUniqueIffNoBar | internal/pkg/transform/describework/describework.go:149-151 | a prompt version and model share their processing version with no other pair if and only if neither contains the separator |
| DescribeWork.Services.Describe | internal/pkg/transform/describework/describework.go:301-332 | a hit returns the entry and leaves cache and answers alone; a miss asks once, with this input's prompt, and stores and returns the answer; there is no text exactly when a call that was needed has failed; no other entry is touched |
| DescribeWork.Apply | internal/pkg/transform/describework/describework.go:173-201 | one row per described group in key order, with its key, the number of its commits and its text; a failure keeps the rows before it |
| DescribeWork.StopsAtFirstFailure | internal/pkg/transform/describework/describework.go:173-201 | groups are described up to the first whose input or description fails, and nothing is done for those behind it |
| DescribeWork.RunsKeepSound | internal/pkg/transform/describework/describework.go:173-332 | one run that no other run interrupts, whatever fails in it, keeps every entry an answer to its key's prompt and changes no entry that was there |
| DescribeWork.HitIsAnAnswer | internal/pkg/transform/describework/describework.go:311-318 | a hit is an answer to the very prompt that a call would have sent |
| DescribeWork.RepeatMakesNoCall | internal/pkg/transform/describework/describework.go:173-201 | after a successful run that no other run interrupts, the same inputs are described again without an LLM call and with identical texts |
| DescribeWork.SecondRunAppendsSameRows | internal/pkg/transform/describework/describework.go:173-201 | run again on the same timeline, with no other run around, the step appends identical rows |
| CacheProtocol.StepKeepsInv | internal/pkg/transform/describework/describework.go:301-332 | every step of any number of overlapping runs keeps entries sound, ties each text to its entry unless that was replaced, and dates each miss before the entry it would replace |
| CacheProtocol.EverythingIsAnswered | internal/pkg/transform/describework/describework.go:301-332 | in every state overlapping runs reach from the empty cache, every entry is an answer to its key's prompt and every text of every run an answer to that run's own input |
| CacheProtocol.EntryChangesIffLateWrite | internal/pkg/db/store.go:313-337 | entries are never dropped, and one changes at a step if and only if the step writes another text for a run whose own read missed before the entry was written |
| CacheProtocol.EntryStaysIffNotThreatened | internal/pkg/db/store.go:313-337 | an entry stays in every continuation if and only if no run is between a read that missed it and the write of another text |
| CacheProtocol.FinishedIsSettled | internal/pkg/transform/describework/describework.go:301-332 | a finished run is settled when no late write has replaced one of its entries and no run threatens one |
| CacheProtocol.RepeatIsIdentical | internal/pkg/transform/describework/describework.go:173-201 | a run that repeats settled texts asks nothing and gives the same texts, whatever else goes on |
| CacheProtocol.AlwaysRepeatsIffSettled | internal/pkg/transform/describework/describework.go:173-201 | every later run with the same version and inputs repeats the texts without a call, in every continuation, if and only if they are settled |
| CacheProtocol.FinishedRepeatsIffSettled | internal/pkg/transform/describework/describework.go:173-201 | for any finished run: every later run with its version and inputs repeats its texts without a call if and only if they are settled |
| CacheProtocol.OverlappingRunsReplace | internal/pkg/transform/describework/describework.go:311-329 | two runs that both miss reach a state in which a repeat of the first gives the second's text |
| CacheProtocol.AloneIsDescribeOne | internal/pkg/transform/describework/describework.go:301-332 | without steps of others in between the three steps are the sequential description |
| Inline.ParseInline | web/src/lib/markdown.ts:33-71 | the scan computes the tokens of the leftmost matches in turn |
| Inline.SpansPartitionText | web/src/lib/markdown.ts:33-71 | matched and plain stretches, in order, make up the text |
| Inline.TokensKeepText | web/src/lib/markdown.ts:45-62 | every token keeps the text of its stretch but for its markup |
| Inline.LinksAreSafe | web/src/lib/markdown.ts:28-60 | a link token always has a safe target |
| InlinePatterns.SafeHrefIff | web/src/lib/markdown.ts:28 | a target is safe if and only if it is an absolute path, a fragment, or has the scheme http, https or mailto in either case |
| InlinePatterns.OtherSchemesAreUnsafe | web/src/lib/markdown.ts:28 | a target with any other scheme is not |
| InlinePatterns.MatchAtIff | web/src/lib/markdown.ts:30-62 | what is matched at a position is exactly what the patterns say: the shortest bold span, failing that an italic one, a code span, or a link, which without a safe target is its text and its target in parentheses |
| InlinePatterns.TrimIs | web/src/lib/markdown.ts:54-55 | trimming takes all white space off both ends and nothing else |
| InlinePatterns.SpacesAre | web/src/lib/markdown.ts:54 | white space and line terminators are the code points that ECMA-262 lists |
| InlineRendering.TokenAt | web/src/lib/markdown.ts:30-60 | a token written as markdown is matched where it stands, as the sort it is and to its end, whatever follows |
| InlineRendering.RenderedParsesBack | web/src/lib/markdown.ts:33-71 | any sequence of tokens whose texts do not hold their own markup, written as markdown, is read back unchanged |
| LinePatterns.HeadingIff | web/src/lib/markdown.ts:73 | a heading is one to six hashes, white space and the text |
| LinePatterns.QuoteIff | web/src/lib/markdown.ts:76 | a quote is its sign, one white space if there is one, and the text |
| LinePatterns.UnorderedIff | web/src/lib/markdown.ts:74 | an unordered item is a dash or a star, white space and the text |
| LinePatterns.OrderedIff | web/src/lib/markdown.ts:75 | an ordered item is digits, a dot, white space and the text |
| LinePatterns.KindIff | web/src/lib/markdown.ts:91-166 | which of these a line is, or a fence, or blank; no line is two of them |
| Markdown.LinesMakeSource | web/src/lib/markdown.ts:80 | the lines joined by line breaks are the source |
| Markdown.EveryLineInOnePiece | web/src/lib/markdown.ts:79-170 | every line, in order, is in exactly one piece |
| Markdown.ParseIsCanonical | web/src/lib/markdown.ts:79-170 | pieces are well formed, neighbours could not be one piece, and only the last fence can be unclosed |
| Markdown.OnlyOneCanonicalCut | web/src/lib/markdown.ts:79-170 | the grammar is unambiguous: cutting a canonical sequence's lines again gives that sequence back |
| Markdown.ItemsNeedOnePattern | web/src/lib/markdown.ts:135-154 | the list loop's single pattern and the outer loop's ordered patterns agree on what an item is and on its text |
| Markdown.LinesAreUnique | web/src/lib/markdown.ts:80 | cutting joined lines gives the lines back |
| Markdown.ParseIsTheGrammar | web/src/lib/markdown.ts:79-170 | a sequence of pieces is the parser's if and only if it is canonical and its lines, joined by line breaks, are the source |
| Markdown.ReadFence | web/src/lib/markdown.ts:101-112 | the fence loop takes exactly the fence piece at this line, closed or not |
| Markdown.ReadList | web/src/lib/markdown.ts:137-157 | the list loop takes exactly the list piece at this line |
| Markdown.ParseMarkdown | web/src/lib/markdown.ts:79-170 | ends on every source and returns the blocks of the grammar's pieces |
| MarkdownRendering.RenderedBlocksParseBack | web/src/lib/markdown.ts:79-170 | headings of every level, quotes, both sorts of list, fenced code and paragraphs of any number of lines, written as lines with an empty line between two blocks, are read back as exactly those blocks |
| MarkdownRendering.TitleAndList | web/src/lib/markdown.ts:79-170 | a title and a numbered list, written out, and the two blocks they are |

## Left out

- Integer width: Go's `int64` and `int` are unbounded here; times, sums and page offsets are taken not to overflow.
- Rounding: `float64` is `real`, so the conservation of sums is exact here and up to rounding in the program.
- Day strings are day numbers: formatting a UTC day is injective and keeps the order for the years 0 to 9999.
- Off-hours minutes are in [0, 1440) and `MaxRetries` is not negative, as the types they come from validate.
- One `Run` per service manager and per application; a second `Run` on the same object is not modelled.
- ManagerShutdown.ShutdownNeverStuck: takes a service's own `Run` to return some time after cancellation; how soon is its own affair. Step counts stand for time.
- AppProtocol.ShutdownNeverStuck: takes the manager's `Stop` as one step that ends and its `Run` as one that returns at some time, and so does AppShutdown.ShutdownTerminates; `JointShutdown` does without both.
- Timers (retry delay, stop timeout) may fire at any moment; durations are not modelled. Panics of a service count as failures, as `safeRun` makes them.
- Instantiation of services, enabled-service parsing and `Commands`: settled by reading one body.
- Sync.CursorsNeverLoseEvents: takes the listing of one repository and its writes as one step; `Sync.ArrivalsDuringSync` says what events that appear between the two change.
- Sync.Sync: takes the events of one listing to be what the `GHClient` interface promises; whether the command-line client fetches every page of an endpoint is not modelled. User resolution and discovery are one answer.
- Paging.QueryTimeline: takes the rows in one fixed newest-first order; SQL leaves ties open. Updates and deletions between pages are not modelled, insertions are.
- Templates.RunCommitsPerRepo: the bucket key is the repository's name without its owner, as in the code, so repositories of one name and different owners share a row.
- The last-synced time and `Status` of the sync controller: a clock and a read of fields.
- The wording of the prompt: it is the input behind a fixed instruction, and the model keeps the input.
- Hashing: SHA-256 is a function without collisions and without the separator in its hex output.
- DescribeWork.BuildInput: cuts a diff after 2000 characters where the program cuts after 2000 bytes; the length that makes a title thin is counted in UTF-8 bytes. The diff fetcher is a deterministic function that may fail.
- Markdown.ParseMarkdown: works on code points where JavaScript works on UTF-16 units; no pattern tells a surrogate pair from one character.
- `applyLayout`, `renderTable`, headings and text blocks: formatting and dispatch, each settled by one body.
- `Pipeline.Run` and `Registry`: templates call their steps in order instead.
- Decoding of step parameters and forms, including the coercion of a form's rate to a number: models start from decoded values.
- The steps activity-summary, llm-step and the LLM composer, HTTP and MCP handlers, routing, CSV and PDF export, the database layer's SQL, migrations and DTO mapping, and the web client's stores: input and output, or thin wrappers.
