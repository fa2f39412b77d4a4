# Shinsakuto: a verified model

Shinsakuto is a distributed monitoring system written in Go.  An *arbiter* reads definition files, resolves
templates, lints the result and deals it out to *schedulers*.  A scheduler hands check tasks to *pollers*, takes
their results back through a bounded queue and ten workers, keeps the state of hosts and services, writes a
history log, and sends notifications and a copy of each result to a *broker*, which writes batches to a database.

This project models that logic in Dafny and proves what it keeps over whole runs.  Code that changes things in
place is modelled by classes and loops (maps of pointers, Go slices that share arrays, counters); each such method
is proved against a function on values, and the properties are proved about those functions and about runs.

## Layout

| file | content |
|---|---|
| `Models.dfy`, `Seqs.dfy`, `Arithmetic.dfy`, `GoSlices.dfy` | records, sequence lemmas, division, Go slices |
| `SchedulerState.dfy` | the scheduler as a step machine on values: state, events, runs |
| `Scheduler.dfy` | the scheduler's handlers and workers as a class; each method takes one step of the machine |
| `Timing.dfy` | pacing, bounded starvation, draining |
| `Confluence.dfy`, `Pool.dfy` | in which order workers may process results; conservation of results |
| `History.dfy` | what the history log and the notifications record |
| `Inheritance.dfy`, `Loader.dfy` | bounded template inheritance; loading and the group index |
| `Linter.dfy`, `Sharding.dfy`, `SyncController.dfy` | audit, shards, retries and cool-off |
| `CoolOffRaces.dfy` | the cool-off with every read and write of its two variables as a step of its own |
| `Placement.dfy`, `Rounds.dfy` | linter, sharding and scheduler together; rounds that overlap |
| `Broker.dfy`, `Downtimes.dfy`, `Poller.dfy` | batching, the replicated downtime list, the polling loop |
| `CheckLoop.dfy` | from the pop through a poller back to the history log |

`dafny verify dfyconfig.toml` checks the whole project.

## How a scheduler run is modelled

The state is what the mutex protects (both maps, the history log, the notifications and the results sent on), the
result queue, the ten workers (idle, or holding one dequeued result), and the last time read under the mutex.  A
run is a sequence of events: sync, pop, push, dequeue, process.  Dequeue and process are separate steps because a
worker receives from the channel before it takes the mutex, so results can overtake each other.  Which entity a pop
serves (Go ranges over maps in arbitrary order), which worker moves and what the clock says are part of the event;
theorems hold for all of them.  Time is an integer number of nanoseconds and never goes back under the mutex.

A host that one sync drops and a later one brings back is reset (`cmd/scheduler/handler.go:32`), so statements about
one entity cover a stretch in which it is in every sync payload (`Keeps`).

## Findings about the code

The code is modelled as it is.  Where a promise of it can fail, the condition given is exact; the last two points
are about its documentation.

- The order in which two workers process two results shows if and only if the results are different and belong to
  the same configured entity, and then the maps already show it (`Confluence.OvertakingIff`).  Two runs of the
  machine that end differently: `Pool.OvertakingExample`.  For any number of results, the maps differ if and only
  if some entity gets a different last result (`Confluence.MapsAgreeIff`), and maps, log or notifications differ if
  and only if that holds or the changes of some entity read differently (`Confluence.OutcomeIff`).
- A task's result finds its entity if and only if the entity is a host or a service whose ID does not start with
  `HOST:` (`Poller.RoutedBackIff`).  The linter accepts a service `HOST:x`, and its results change host `x` instead
  (`Poller.PrefixedAccepted`, `Poller.PrefixedService`).
- Six ancestors take part in inheritance, since a call at depth 5 still looks up its parent
  (`cmd/arbiter/watcher.go:272`).  Compared with any larger cap, a resolved object differs if and only if it and its
  first six ancestors leave some inheritable field empty and a later ancestor that the larger cap reaches sets it
  (`Inheritance.HostCapLosesIff`, `Inheritance.ServiceCapLosesIff`; an input: `Inheritance.EighthAncestorIsLost`).
- The flag and the start time of the cool-off are read (`cmd/arbiter/watcher.go:59-61`), cleared (line 65) and set
  (lines 184-185) without a lock, by concurrent refreshes and rounds.  A recorded failure blocks every refresh for
  the cool-off if and only if, when its start time is written, the flag is set and no refresh stands between its
  comparison and its clear (`CoolOffRaces.CoolOffHoldsIff`).  Two runs in which it does not:
  `CoolOffRaces.StraddlingRefresh` and `CoolOffRaces.RefreshBetweenWrites`.
- Rounds run on their own goroutines (`cmd/arbiter/watcher.go:96`).  While they do not overlap, a round that reports
  success leaves every scheduler with its shard (`Rounds.SuccessPlaces`).  Two rounds that overlap can both reach
  all schedulers and leave a host on two of them and another on none (`Rounds.OverlappingRounds`).
- Services are keyed by ID alone (`cmd/scheduler/handler.go:47`).  A scheduler keeps all services of a sync if and
  only if their IDs are pairwise distinct (`Placement.AllServicesKeptIff`), which the linter does not ask for
  (`Placement.DuplicateService`).
- The repository's `README.md` says that the arbiter sends a global payload to the schedulers; the code sends each
  scheduler its own shard.  The model follows the code.
- A comment in `cmd/poller/executor.go:38` says that a check that runs into the timeout reports status 3; a killed
  process reports its wait status instead.  The model leaves the status of a task open, so both are covered.

## Model

| member | source | states |
|---|---|---|
| SchedulerState.SyncKeepsHostState | cmd/scheduler/handler.go:27-35 | after a sync a known host keeps its up flag, status and next check, a new one is up and due; every other field comes from the last definition of its ID |
| SchedulerState.SyncKeepsServiceState | cmd/scheduler/handler.go:40-48 | the same for services, which keep next check and current state |
| SchedulerState.SyncedHostsKeys | cmd/scheduler/handler.go:26-36 | a sync configures exactly the host IDs of the payload, each under its own ID |
| SchedulerState.SyncedServicesKeys | cmd/scheduler/handler.go:39-49 | a sync configures exactly the service IDs of the payload |
| SchedulerState.RunKeepsWellFormed | cmd/scheduler/main.go:22-33 | in every reachable state the maps are keyed by ID, at most 5000 results are queued and there are ten workers |
| Scheduler.Server.constructor | cmd/scheduler/main.go:22-33 | a started scheduler has empty maps, logs and queue and ten idle workers |
| Scheduler.Server.SyncAll | cmd/scheduler/handler.go:13-54 | a sync takes the sync step of the machine and answers 200; a body that does not decode changes nothing and gets 400 |
| Scheduler.Server.RebuildHosts | cmd/scheduler/handler.go:26-35 | the host loop builds a new map of fresh, unshared objects with the merged values |
| Scheduler.Server.RebuildServices | cmd/scheduler/handler.go:39-48 | the service loop builds a new map of fresh, unshared objects with the merged values |
| Scheduler.Server.PopTask | cmd/scheduler/handler.go:57-79 | a pop takes a pop step that the machine allows, whatever order the maps are ranged over, and answers the task of the served entity (see Timing.HostTasks), or 204 only if nothing is due |
| Scheduler.Server.PopHost | cmd/scheduler/handler.go:63-69 | the host loop serves and re-arms one due host, or finds that no host is due |
| Scheduler.Server.PopService | cmd/scheduler/handler.go:71-77 | the service loop serves and re-arms one due service, or finds that none is due |
| Scheduler.Server.PushResult | cmd/scheduler/handler.go:82-95 | a result is queued with 202 exactly while fewer than 5000 wait, else dropped with 503; an undecodable body changes nothing |
| Scheduler.Server.ReceiveResult | cmd/scheduler/main.go:121 | an idle worker takes the front of the queue |
| Scheduler.Server.ProcessResult | cmd/scheduler/main.go:122-129 | a worker under the mutex takes the process step of the machine, with the handler chosen by the prefix |
| Scheduler.Server.HandleHostResult | cmd/scheduler/engine.go:16-34 | the host's fields, history, notifications and forwarded results change as the machine says, an unknown host changes nothing |
| Scheduler.Server.HandleServiceResult | cmd/scheduler/engine.go:37-52 | the same for services, silenced by their own or their host's downtime |
| SchedulerState.HostResult | cmd/scheduler/engine.go:16-34 | everything a result `HOST:k` changes, read off the maps: the fields of host k, an UP or DOWN line and a notification exactly when the up flag changes (no notification in downtime), one copy for the broker |
| SchedulerState.ServiceResult | cmd/scheduler/engine.go:37-52 | everything a service result changes, read off the maps: an ALERT goes out exactly when the state changes, the service is not in downtime and its host is unknown or not in downtime |
| SchedulerState.UnknownResult | cmd/scheduler/engine.go:18-39 | a result of anything that is not configured changes nothing |
| Confluence.StepSlice | cmd/scheduler/engine.go:16-52 | a result changes map entry, history and notifications of its own entity and of no other |
| Confluence.Projection | cmd/scheduler/engine.go:16-52 | after any mixture of results each entity looks as if only its own results, in their order, had been processed |
| Confluence.RoutedById | cmd/scheduler/main.go:123-127 | the results routed to an entity are those of one ID |
| Confluence.Forwarding | cmd/scheduler/engine.go:33-51 | the broker gets exactly the results of configured entities, in processing order |
| Confluence.OrdersAgree | cmd/scheduler/engine.go:16-52 | two processing orders that agree on the order per result ID end in the same maps, the same history and notifications per entity and the same multiset sent to the broker |
| Confluence.LastResultWins | cmd/scheduler/engine.go:22-42 | the map entry of an entity depends on the last of its results only |
| Confluence.MapsAgreeIff | cmd/scheduler/main.go:120-131 | two orders of the same results leave the same maps if and only if every configured entity gets the same last result |
| Confluence.OvertakingIff | cmd/scheduler/main.go:120-131 | swapping two results shows, in the maps or anywhere, if and only if they are different results of one configured entity |
| Confluence.AllRecord | cmd/scheduler/engine.go:25-50 | the results of an entity are logged and, unless it is muted, announced exactly where they change its level |
| Confluence.OutcomeIff | cmd/scheduler/main.go:120-131 | two orders of the same results have the same outcome if and only if every configured entity gets the same last result and its changes read the same in the log and, unless muted, in the notifications |
| Pool.Conservation | cmd/scheduler/main.go:120-131 | over any run, accepted results are exactly those queued, held by workers and processed, as multisets |
| Pool.FirstInFirstOut | cmd/scheduler/main.go:32 | over any run, what was queued and accepted is, in order, what was dequeued followed by the queue |
| Pool.OvertakenAtMost | cmd/scheduler/main.go:120-131 | when a result is processed, the results accepted before it are dequeued, and at most nine dequeued ones besides it are unprocessed |
| Pool.PoolBounds | cmd/scheduler/main.go:61-63 | never more than 5000 results queued or ten held |
| Pool.RefusedIsNeverProcessed | cmd/scheduler/handler.go:88-94 | a result that was only answered 503 is never processed |
| Pool.RunIsProcessing | cmd/scheduler/main.go:120-131 | pops, pushes and worker scheduling leave no trace in a sync-free run but the processing order and the next checks |
| Pool.RunsAgree | cmd/scheduler/main.go:120-131 | two sync-free runs whose processing orders agree per ID end with the same outcome, next checks aside; and with the same next checks too if they served each entity at the same times |
| Pool.OvertakingRuns | cmd/scheduler/main.go:120-131 | from every state with two different results of one configured entity anywhere in the queue and any two idle workers, two runs that differ only in who gets the mutex first end in different maps |
| Pool.OvertakingExample | cmd/scheduler/main.go:120-131 | a host that ends down in one run and up in the other |
| Pool.OnePerIdOrders | cmd/scheduler/main.go:120-131 | with one result per ID all orders agree per ID |
| Pool.DrainedRunsAgree | cmd/scheduler/main.go:120-131 | with one result per ID, any two schedules that drain the same accepted results end the same |
| Timing.StepNextCheck | cmd/scheduler/handler.go:29-33 | only a pop of the entity itself moves its next check, syncs do not |
| Timing.Pacing | cmd/scheduler/handler.go:63-77 | while an entity stays configured, two pops of it are more than 2 minutes (host) or 1 minute (service) apart, through any number of syncs, and its next check is set by the last pop |
| Timing.SpacedSpan | cmd/scheduler/handler.go:63-77 | k >= 2 pops of one entity span more than (k - 1) periods |
| Timing.EntityBound | cmd/scheduler/handler.go:63-77 | in a window of length L an entity is served at most max(1, ceil(L / period)) times |
| Timing.TaskBound | cmd/scheduler/handler.go:57-79 | the tasks issued in a window with a fixed configuration are bounded by the sum of these, with periods of 120 and 60 seconds |
| Timing.BoundedStarvation | cmd/scheduler/handler.go:61-77 | in a window of at most its own period (two minutes for a host, one for a service), an entity due at the start is served within the first hosts + services pops, a host within the first hosts, for every iteration order, also with syncs that bring no new entity and leave it a command |
| Timing.SyncFreeIsQuiet | cmd/scheduler/handler.go:61-77 | windows without syncs are among these |
| Timing.StepDue | cmd/scheduler/handler.go:61-77 | a pop at a fixed time takes the served entity and nothing else out of the due set |
| Timing.Draining | cmd/scheduler/handler.go:61-78 | at a fixed time with d due entities exactly the first d pops succeed, hosts before services, nothing twice, and pop d + 1 answers no content |
| Timing.DrainedAll | cmd/scheduler/handler.go:61-78 | and each due entity is among those d |
| Timing.ServedAtIff | cmd/scheduler/handler.go:63-77 | at a fixed time, within as many pops as there are hosts and services, exactly those are served that have a check command and whose next check has passed |
| Timing.NoContentIff | cmd/scheduler/handler.go:63-78 | a pop answers no content if and only if no host or service with a check command has its next check behind it |
| Timing.HostTasks | cmd/scheduler/handler.go:66 | from a sync up to the next one, the task of a served host is `HOST:` and its ID, with the non-empty check command of its last definition in the payload |
| Timing.ServiceTasks | cmd/scheduler/handler.go:74 | the same for services, under their own ID |
| Timing.PacingInSeconds | cmd/scheduler/handler.go:65-73 | two pops of one host are more than 120 seconds apart, of one service more than 60, and a pop arms the next check that much later |
| History.EntityHistory | cmd/scheduler/engine.go:21-45 | over any run in which a host or service stays configured, its new history lines are those of its processed results that change its level, its level is the last one's, and syncs add nothing |
| History.FlipsSpellChanges | cmd/scheduler/engine.go:25-45 | the logged results spell out the changes of the level one by one |
| History.ChangesCompress | cmd/scheduler/engine.go:25-28 | a trace reduced to its changes never repeats a value, has the same values and ends the same |
| History.HistoryAlternates | cmd/scheduler/engine.go:21-32 | a host's new lines strictly alternate, start with the opposite of the initial flag, determine the current flag, and are as many as the flag changes |
| History.ServiceHistory | cmd/scheduler/engine.go:41-45 | a service's new lines are one CHANGE per change in its current state followed by the statuses, syncs included |
| History.NewHostHistory | cmd/scheduler/handler.go:31-33 | from the sync that introduces a host or brings it back, its new lines read DOWN, UP, DOWN, ..., whatever the log said before |
| History.NotificationsFollowHistory | cmd/scheduler/engine.go:25-50 | over any run, syncs included, notifications about an entity are its new history lines one for one, except those written while it is in downtime or, for a service, its known host is |
| History.NotificationsAreChanges | cmd/scheduler/engine.go:25-50 | over any run, with or without a history log, the notifications about an entity are exactly those of its processed results that change its level outside downtime, with their status and output |
| History.SyncFreeLoudLines | cmd/scheduler/engine.go:25-50 | without a sync these are all new lines or none |
| Inheritance.ResolvedHostIsFirstSet | cmd/arbiter/watcher.go:271-282 | each inheritable field of a resolved host is the first non-empty value along its `use` chain, cut after six ancestors |
| Inheritance.ResolvedServiceIsFirstSet | cmd/arbiter/watcher.go:284-294 | the same for services |
| Inheritance.FirstSetAt | cmd/arbiter/watcher.go:275-279 | a field is taken from the first element of the chain that sets it |
| Inheritance.FirstSetNowhere | cmd/arbiter/watcher.go:275-279 | a field that no element sets stays empty |
| Inheritance.NothingToInherit | cmd/arbiter/watcher.go:272-273 | a host without `use`, or with an unknown one, stays as it is |
| Inheritance.NothingToInheritForService | cmd/arbiter/watcher.go:285-286 | the same for services |
| Inheritance.ResolveHostIdempotent | cmd/arbiter/watcher.go:271-282 | resolving a resolved host changes nothing |
| Inheritance.ResolveServiceIdempotent | cmd/arbiter/watcher.go:284-294 | resolving a resolved service changes nothing |
| Inheritance.LongerWalkAddsNothing | cmd/arbiter/watcher.go:271-294 | if at most n templates are reachable, a walk of n ancestors finds all that a longer one finds, on cyclic references too |
| Inheritance.HostCapIsLossless | cmd/arbiter/watcher.go:271-282 | with at most six reachable templates the cap gives the same host as any larger cap |
| Inheritance.ServiceCapIsLossless | cmd/arbiter/watcher.go:284-294 | the same for services |
| Inheritance.HostCapLosesIff | cmd/arbiter/watcher.go:271-282 | resolution differs from that with any larger cap if and only if one of the five fields is unset up to the cap and set on a later ancestor in reach |
| Inheritance.ServiceCapLosesIff | cmd/arbiter/watcher.go:284-294 | the same for the four fields of a service |
| Inheritance.EighthAncestorIsLost | cmd/arbiter/watcher.go:272 | eight chained templates of which the eighth alone has an address: the code's cap misses it |
| Loader.LastHostTemplate | cmd/arbiter/watcher.go:222-225 | the last host template of an ID counts |
| Loader.LastServiceTemplate | cmd/arbiter/watcher.go:226-229 | the last service template of an ID counts |
| Loader.HostTemplateDefined | cmd/arbiter/watcher.go:222-225 | a name is a host template if and only if some host says `register: false` under it |
| Loader.ServiceTemplateDefined | cmd/arbiter/watcher.go:226-229 | the same for services |
| Loader.LoadedHostPlace | cmd/arbiter/watcher.go:237-240 | each registered host is loaded once, resolved, behind the registered hosts before it; templates are left out |
| Loader.LoadedServicePlace | cmd/arbiter/watcher.go:251-254 | the same for services |
| Loader.LoadHosts | cmd/arbiter/watcher.go:231-249 | the host loop, with groups changed through pointers, yields the resolved registered hosts and a listing of the group index |
| Loader.LoadServices | cmd/arbiter/watcher.go:234-263 | the service loop does the same with members of the form host,service |
| Loader.Join | cmd/arbiter/watcher.go:241-247 | joining writes through the shared pointers and creates missing groups, leaving all other groups alone |
| Loader.Listing | cmd/arbiter/watcher.go:265-266 | the final list has every group of the map once, in some order |
| Loader.LoadAndProcess | cmd/arbiter/watcher.go:216-268 | the final configuration: commands, periods and contacts unchanged, hosts and services resolved, both group lists, no downtimes |
| Loader.SixAncestors | cmd/arbiter/watcher.go:237-254 | what loading returns are the registered hosts and services in file order, each with its inheritable fields taken from itself and six ancestors |
| Loader.SixthArrives | cmd/arbiter/watcher.go:272 | of seven chained templates, an address on one of the first six arrives in the loaded configuration, one on the seventh does not |
| Loader.HostGroupsAre | cmd/arbiter/watcher.go:231-265 | the loaded host groups are those declared and those that a loaded host names, with the members of the last declaration followed by the IDs of the hosts that name them, in host order, once per naming |
| Loader.ServiceGroupsAre | cmd/arbiter/watcher.go:234-266 | the same for service groups, with members of the form host,service |
| Loader.BaseGroup | cmd/arbiter/watcher.go:231-245 | an undeclared group starts without alias and members, a declared one with its last declaration |
| Loader.JoinedAt | cmd/arbiter/watcher.go:241-247 | a group's entry in the index is its declaration followed by one entry per occurrence of its name |
| Loader.DeclaredLast | cmd/arbiter/watcher.go:231-235 | the last declaration of a group ID counts |
| Loader.GroupIndex | cmd/arbiter/watcher.go:231-266 | the final groups are exactly the declared and the joined ones, with the members of the last declaration followed by one entry per occurrence in the resolved objects, in object order |
| Loader.LoadedIsRegistered | cmd/arbiter/watcher.go:237-254 | no template is in a loaded configuration |
| Linter.LintHosts | cmd/arbiter/linter.go:46-73 | the host loop finds exactly the specified errors, warnings and count, and the map of known hosts |
| Linter.LintServices | cmd/arbiter/linter.go:75-96 | the service loop finds exactly the specified errors and count |
| Linter.RunLinter | cmd/arbiter/linter.go:32-100 | the audit as a whole, in order |
| Linter.CleanIff | cmd/arbiter/linter.go:46-96 | no error if and only if registered hosts have non-empty, pairwise distinct IDs and every registered service has an ID and names a registered host |
| Linter.IdErrorCount | cmd/arbiter/linter.go:57-67 | host errors are all registered hosts but one per distinct non-empty ID |
| Linter.EmptyIdErrors | cmd/arbiter/linter.go:58-61 | one error for every empty ID |
| Linter.DuplicateErrors | cmd/arbiter/linter.go:64-67 | for every other ID, one error for each host beyond the first that has it |
| Linter.ErrorCount | cmd/arbiter/linter.go:46-96 | errors are empty host IDs, plus repeated ones, plus services without ID, plus services whose host is missing or unknown |
| Linter.ServiceErrorKinds | cmd/arbiter/linter.go:84-95 | each error about services, with its arguments, occurs as often as services cause it |
| Linter.ErrorOrder | cmd/arbiter/linter.go:48-96 | errors about host IDs come before those about services |
| Linter.WarningsAre | cmd/arbiter/linter.go:69-72 | one warning, in order, for each registered host with an ID whose address is neither empty nor localhost nor an IP address |
| Linter.LoadedCounts | cmd/arbiter/linter.go:49-82 | on a loaded configuration the host and service counts are the list lengths |
| Sharding.DealHosts | cmd/arbiter/watcher.go:122-128 | the host loop appends each host to the shard of its index and notes the shard of its ID |
| Sharding.DealServices | cmd/arbiter/watcher.go:130-135 | the service loop appends each service to the shard of its host or leaves it out |
| Sharding.PartitionConfig | cmd/arbiter/watcher.go:105-138 | the shards for n schedulers; for n <= 1 the whole configuration |
| Sharding.ShardLayout | cmd/arbiter/watcher.go:122-128 | shard s has ceil((H - s) / n) hosts and its k-th is host k * n + s |
| Sharding.HostPosition | cmd/arbiter/watcher.go:124-126 | host i is number i / n of shard i % n |
| Sharding.Balance | cmd/arbiter/watcher.go:122-128 | two shards differ by at most one host |
| Sharding.ShardRoundTrip | cmd/arbiter/watcher.go:122-128 | interleaving the shards rebuilds the host list |
| Sharding.GrowthMovesNothing | cmd/arbiter/watcher.go:122-128 | appending hosts extends every shard at its end |
| Sharding.GrowthKeepsShard | cmd/arbiter/watcher.go:127 | appending hosts moves no existing ID that is not defined again |
| Sharding.HostShardMeaning | cmd/arbiter/watcher.go:123-128 | the shard map knows exactly the host IDs; the last host of an ID decides |
| Sharding.ShardServicesMeaning | cmd/arbiter/watcher.go:130-135 | a shard's services are those whose host is mapped to it |
| Sharding.ShardServicePlaces | cmd/arbiter/watcher.go:131-135 | a shard has these services in the order of the configuration, given by their places |
| Sharding.ShardsMirror | cmd/arbiter/watcher.go:106-120 | every shard mirrors commands, contacts and time periods; with one scheduler or none the configuration stays whole |
| Sharding.ServicesConserved | cmd/arbiter/watcher.go:130-135 | the shards together hold each service with a known host exactly as often as the input |
| Sharding.NothingDroppedIff | cmd/arbiter/watcher.go:131-134 | nothing is dropped if and only if every service names a known host |
| SyncController.PushShard | cmd/arbiter/watcher.go:157-178 | one to three attempts, stopping at the first 200, and success if and only if one of the three would be answered 200 |
| SyncController.ReachedCounts | cmd/arbiter/watcher.go:182-188 | the success counter is total, or zero, if and only if all, or none, were reached |
| SyncController.OneShardEach | cmd/arbiter/watcher.go:150-151 | there is one shard for each scheduler, so none is skipped |
| SyncController.Arbiter.PushAll | cmd/arbiter/watcher.go:150-179 | every scheduler that has a shard is tried one to three times, the others are skipped, and the counter counts those reached |
| SyncController.Arbiter.SyncRound | cmd/arbiter/watcher.go:141-190 | syncSuccess if and only if there is a shard for every scheduler and all were reached, cool-off entered if and only if none was |
| SyncController.Arbiter.Refresh | cmd/arbiter/watcher.go:57-102 | what a refresh does in each case: blocked, unreadable, follower, rejected by the linter, or pushing the shards of the loaded configuration |
| SyncController.Arbiter.constructor | cmd/arbiter/config.go:55-58 | a cool-off that is not positive becomes five minutes |
| SyncController.CoolOffState | cmd/arbiter/watcher.go:57-66 | in any run of unsplit steps the two variables remember the latest total failure, or it was old at the last event; for split steps see CoolOffRaces.LastWrites |
| SyncController.LastFailureMeaning | cmd/arbiter/watcher.go:59-61 | with time going forward, comparing with the latest failure is comparing with all |
| SyncController.GuardIsExact | cmd/arbiter/watcher.go:57-66 | in any run of unsplit steps with any number of rounds a refresh passes the guard if and only if no total failure was recorded less than the cool-off before it; for split steps see CoolOffRaces.SealedGuardIsExact |
| CoolOffRaces.LastWrites | cmd/arbiter/watcher.go:59-65 | after any interleaving the last flag write and the last stamp decide what the variables hold |
| CoolOffRaces.CheckIff | cmd/arbiter/watcher.go:59-65 | in any interleaving a refresh goes on if and only if the last flag write before its look is a clear or the last stamp before its comparison is old; within the cool-off of the recorded failure, if and only if that write is a clear |
| CoolOffRaces.SealedHolds | cmd/arbiter/watcher.go:59-65 | with the flag set and no refresh about to clear it, nobody goes on during the cool-off |
| CoolOffRaces.CoolOffHoldsIff | cmd/arbiter/watcher.go:184-185 | a recorded failure blocks every refresh for the cool-off, whatever refreshes and rounds do, if and only if the state it leaves is sealed: flag set, no refresh about to clear it |
| CoolOffRaces.SealedGuardIsExact | cmd/arbiter/watcher.go:57-66 | in any interleaving whose stamps leave sealed states, a refresh passes if and only if no failure was recorded less than the cool-off before it |
| CoolOffRaces.UnsplitStep | cmd/arbiter/watcher.go:57-66 | the steps of one refresh or one round, taken together, are one step of the controller and leave a sealed state |
| CoolOffRaces.UnsplitRun | cmd/arbiter/watcher.go:57-66 | so the runs of the controller are the interleavings in which nothing is split |
| CoolOffRaces.StraddlingRefresh | cmd/arbiter/watcher.go:59-65 | a refresh that compares before a failure and clears after it lets another refresh pass at once |
| CoolOffRaces.RefreshBetweenWrites | cmd/arbiter/watcher.go:184-185 | so does a refresh between the two writes of a failure |
| Placement.StepKeepsLookup | cmd/scheduler/engine.go:46-47 | every step keeps the host lookup total when sync payloads are self-contained |
| Placement.RunKeepsLookup | cmd/scheduler/engine.go:46-47 | in every reachable state the host of every service is known |
| Placement.OneHome | cmd/arbiter/watcher.go:84-96 | when the linter accepts, every host ID is on exactly one of n shards |
| Placement.ServicesWithTheirHosts | cmd/arbiter/watcher.go:130-135 | when the linter accepts, a shard has the hosts of its services and all services of its hosts |
| Placement.NothingDropped | cmd/arbiter/linter.go:89-95 | when the linter accepts, the shards together have each service exactly as often as the configuration |
| Placement.RunHolds | cmd/scheduler/handler.go:26-49 | in every state a scheduler reaches, through any number of syncs with shards of accepted configurations, it has exactly its shard of the latest one and every lookup succeeds |
| Placement.EndToEnd | cmd/scheduler/handler.go:26-49 | when all n schedulers got their shards of an accepted configuration last, whatever they got and did before and since, each host ID is on exactly one scheduler, each service ID is with its host and every lookup succeeds |
| Placement.AllServicesKeptIff | cmd/scheduler/handler.go:39-49 | a scheduler keeps all services of a sync if and only if their IDs are pairwise distinct |
| Placement.DuplicateService | cmd/arbiter/linter.go:76-96 | a configuration with one service ID twice that the linter accepts and a scheduler does not keep whole |
| Rounds.LastPlan | cmd/arbiter/watcher.go:141-179 | when rounds do not overlap, the last sync that a scheduler reached by the latest round took is of that round |
| Rounds.SuccessPlaces | cmd/arbiter/watcher.go:182-188 | when rounds do not overlap and the latest reached all n schedulers, each has the hosts and services that are its own |
| Rounds.OverlappingRounds | cmd/arbiter/watcher.go:96 | two overlapping rounds that both reach both schedulers and leave host b on both and host a on none |
| GoSlices.Append | cmd/broker/db_writer.go:31 | append writes behind the shared elements or moves to a new array, and the old slice keeps its elements |
| Broker.DbWorker | cmd/broker/db_writer.go:21-46 | the loop over a buffer that is appended to and truncated in place computes what the worker function says on values |
| Broker.NothingLost | cmd/broker/db_writer.go:28-45 | the flushed batches followed by the buffer are what was received, in order |
| Broker.FlushSizes | cmd/broker/db_writer.go:33-43 | every flush has 1 to B items, one triggered by size exactly B, and fewer than B wait |
| Broker.FlushCount | cmd/broker/db_writer.go:28-45 | k received results and t ticks cause at most floor(k / B) + t flushes |
| Broker.BufferIs | cmd/broker/db_writer.go:30-43 | the buffer is what was received since the last tick without its full batches |
| Broker.FlushedWhen | cmd/broker/db_writer.go:30-43 | a tick flushes what waits, if anything; a received result makes a flush exactly when it completes a batch counted from the last tick, and of that batch |
| Broker.AfterTick | cmd/broker/db_writer.go:37-43 | after a tick nothing waits: all that was received is written |
| Broker.ZeroBatch | cmd/broker/db_writer.go:22-36 | a batch size of 0 works like 1 |
| Broker.Conservation | cmd/broker/main.go:77-85 | over ingestion and all workers, accepted results are exactly those queued, buffered and flushed, and the queue never exceeds 50000 |
| Broker.FirstInFirstOut | cmd/broker/main.go:78 | what was queued and accepted is, in order, what the workers took followed by the queue |
| Broker.WorkersRun | cmd/broker/db_writer.go:14-18 | in every run of the pool each worker is a worker on its own with the choices it sees |
| Broker.EachWorker | cmd/broker/db_writer.go:21-46 | so in every run nothing is lost, what waits and what is flushed is as stated, and the sizes and numbers of flushes hold for each worker |
| Broker.Server.HandleIngestion | cmd/broker/main.go:65-86 | a POST that decodes is queued with 202 exactly while there is room, else 503; other requests change nothing |
| Downtimes.ReplayParts | cmd/arbiter/ha.go:121-134 | replaying a log in two parts is replaying it whole |
| Downtimes.ReplayGrows | cmd/arbiter/ha.go:124-129 | an earlier list is a prefix of every later one |
| Downtimes.ReplayIs | cmd/arbiter/ha.go:124-129 | the list after a log is the starting list followed by the data of its ADD_DT entries, one each and in log order; other entries add nothing |
| Downtimes.Fsm.Apply | cmd/arbiter/ha.go:121-134 | an entry appends its downtime in place, and all snapshots taken so far keep what they held |
| Downtimes.Fsm.Snapshot | cmd/arbiter/ha.go:136-140 | a snapshot shares the array and records the list of that moment |
| Downtimes.Fsm.Persist | cmd/arbiter/ha.go:151-156 | what is written is the list at the time of the snapshot, however many entries were applied since |
| Downtimes.Fsm.Restore | cmd/arbiter/ha.go:142-149 | restoring replaces the list and leaves snapshots alone |
| Downtimes.PersistLate | cmd/arbiter/ha.go:121-156 | a snapshot persisted after any later applies holds the list at the time it was taken |
| Downtimes.CatchUp | cmd/arbiter/ha.go:121-156 | a snapshot persisted after later applies, restored elsewhere and followed by those applies gives the list of the whole log, on both nodes, however the arrays grow |
| Poller.Process.TaskPulled | cmd/poller/main.go:68-72 | a pulled task waits, an error is skipped |
| Poller.Process.AcquireSlot | cmd/poller/main.go:75-76 | the waiting task takes a slot and runs |
| Poller.Process.TaskDone | cmd/poller/main.go:77-81 | the result has the task's ID and goes to its origin, and the slot is freed |
| Poller.ActKeepsInv | cmd/poller/main.go:62-82 | every action keeps: slots in use are the running tasks, at most MaxConcurrent, and every job carries its issuer's task ID |
| Poller.ConcurrencyBound | cmd/poller/main.go:62-82 | in every reachable state at most MaxConcurrent tasks run, besides one that waits |
| Poller.OneResultPerPop | cmd/poller/main.go:67-83 | over any run, jobs taken in are exactly those in hand and those whose one result was sent |
| Poller.IssuedByOrigin | cmd/poller/main.go:68 | no job is taken in more often than its origin issued it |
| Poller.ResultsComeFromPops | cmd/poller/main.go:80-81 | no more results are sent for a task than the scheduler they go to issued it |
| Poller.SchedulersRun | cmd/poller/main.go:97-128 | with a poller attached each scheduler makes a run of its own machine, so all results above apply |
| Poller.RoutedBackIff | cmd/scheduler/main.go:123-127 | the result of a task is routed to its issuer if and only if that is a host or a service ID without the prefix |
| Poller.PrefixedAccepted | cmd/arbiter/linter.go:76-96 | the linter accepts a service `HOST:x` on host `x` |
| Poller.PrefixedService | cmd/scheduler/main.go:123-127 | the result of that service's task changes the host, and the service stays as it was |
| Poller.ResultReachesIssuer | cmd/scheduler/engine.go:17-19 | while the issuer stays configured the result sets its status and touches no other entity; with the prefix it never arrives |
| CheckLoop.PushesComeFromPops | cmd/poller/main.go:68-81 | per task ID, the results pushed to a scheduler and the jobs in hand are no more than its pops and the jobs in hand at the start |
| CheckLoop.ProcessedAtMostPopped | cmd/scheduler/main.go:120-131 | a scheduler whose results all come from one poller processes no more results of an entity than it handed out tasks of it |
| CheckLoop.LinesInWindow | cmd/scheduler/engine.go:25-45 | so an entity adds at most max(1, ceil(L / period)) history lines in a window of length L, whatever its checks report |

## Left out

- HTTP, JSON, YAML, tar and gzip, SMTP, signals, daemon mode, `/proc` metrics and technical logging: a body is either its decoded value or undecodable, and a request either arrives or does not.
- State file of the scheduler (`loadState`, `saveState`, `stateChanged`): a run starts from any well-formed state, so a restored one is covered; that the file is current is not claimed, because the flag is cleared outside the lock and pops do not set it.
- Clock reads of a sync: the code reads the clock once per new object, under one lock; the model reads it once per sync.
- Delivery of notifications and broker posts: each goes out on its own goroutine; the model records the order in which they are emitted under the lock, and no timestamps.
- History lines have no timestamp or column format; opening the log file is the option `historyLog`.
- Reactionner: its snapshot and restore are empty stubs, and the rest is short guards and per-key updates.
- Raft: elections and log replication are a library; the log is given and `leader` is an argument.
- Downtimes added through the standalone API and downtimes in payloads: `InDowntime` is an arbitrary field of the sync payload, since loading never fills the downtime list.
- File walking: loading starts from the definitions already read, in file order; a file that does not parse contributes nothing to them.
- Propagation of definition files to followers and the hot-reload loop: they only trigger a refresh.
- Polling order and intervals, sleeps between retries, tickers: any order and any times are allowed, which includes the real ones.
- Other pollers of the same scheduler appear as further steps of that scheduler.
- CheckLoop.LinesInWindow: for a scheduler that one poller serves and that starts idle with it; for host x it takes the window to serve no service `HOST:x`, whose results would count as the host's.
- Shell execution and the line protocol: a task ends with any status and output, and a flush is the list of its results.
- Linter messages: an error is a constructor with its arguments; whether a string is an IP address is a parameter.
- Negative batch sizes and concurrency limits: Go panics when it makes the buffer or channel; the model uses naturals.
- SyncController.GuardIsExact: takes the guard of a refresh and the two writes of a failed round as one step each; `CoolOffRaces.SealedGuardIsExact` and `CoolOffRaces.CoolOffHoldsIff` say what holds when they are split.
- SyncController.CoolOffState: for the same unsplit steps; `CoolOffRaces.LastWrites` covers the split ones.
- Memory model: reads and writes of the two cool-off variables are sequentially consistent, a start time is read and written as one value, and the clock is read in the same step as the start time is compared or written.
- Timing.BoundedStarvation: leaves out syncs that bring new entities or bring dropped ones back, because these are due at once and may go first.
- Placement.EndToEnd: services with the same ID on one scheduler are one entry, the last one, as in the code; `Placement.AllServicesKeptIff` says when nothing is lost.
- `MaxAttempts`, `Attempts`, `Parents`, evaluation of `CheckPeriod` and `HotReloadDebounce`: no logic uses them.
