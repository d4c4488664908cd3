# Public IP leasing: a verified model

The repository leases public IPv4 addresses for Kubernetes services. An operator
reconciles `PublicIPClaim` objects with optimistic-concurrency writes, asks an
agent on the router for a DHCP lease on a macvlan interface, and publishes the
address in a Cilium pool. The agent keeps its leases in memory and in a state file
and renews each of them in a background loop. The operator watches each router
over a shared SSH connection.

The project models these parts and proves what holds over all their runs.
Concurrent parts are state machines whose step function is total (a step that is
not enabled changes nothing), so that a run is *any* sequence of steps and every
main theorem speaks of every interleaving, every failing call and every crash.
Parts that change state in place are classes whose methods are proved equal to a
specification function, about which the lemmas then speak.

| file | what it models |
|---|---|
| `Reconciliation.dfy` | one execution of `Reconcile` as straight-line code, which the executions below refine |
| `Claims.dfy` | `Reconcile` as concurrent executions against a compare-and-swap API server with stale reads and lost replies |
| `LeaseStore.dfy` | `Store`: memory map, temporary file, rename, two locks, any number of goroutines, process crashes |
| `AgentHandlers.dfy` | the POST and DELETE handlers on top of that store, start-up verification, and the renewal loops both start, writing at any time |
| `Agreement.dfy` | claim executions and agent together |
| `PoolBlocks.dfy`, `PoolSafety.dfy`, `StaleDeletion.dfy` | pool blocks; any number of claims sharing pools; two runs in which one loses its block |
| `Deletion.dfy` | repeated deletion passes that fail anywhere |
| `AgentLeases.dfy` | allocation with rollback, release, start-up verification |
| `Renewal.dfy` | the RENEW / REBIND / backoff loop on an integer clock |
| `SshManager.dfy`, `Backoff.dfy`, `RebootDetection.dfy` | the SSH connection manager |
| `Tracking.dfy` | registry, handler counts and the controller's three claim maps |
| `ShellQuoting.dfy` | `shellQuote` against a POSIX word parser |
| `Common.dfy` | shared datatypes and facts |

## What does not hold

Where the code falls short of a property one would expect, the model keeps the
code and states the exact condition.

- The reconnect backoff is overflow-free exactly when both settings are *below*
  2^62 ns; at 2^62 itself the doubled wait is negative
  (`Backoff.OverflowFreeExactlyBelow62`, `Backoff.OverflowedWaitIsNegative`).
- `Close` is never sure to end monitoring: from every point of the monitoring goroutine
  some continuation, with both of Close's cancels made, leaves a reconnect loop that no
  context cancels or a keep-alive loop that dereferences a nil context
  (`SshManager.CloseNeverSurelyStopsMonitoring`). Such a continuation exists at a later
  point exactly while a goroutine still monitors and either the base context is not yet
  cancelled or the goroutine is not backing off on it (`SshManager.CloseCanStrayExactlyWhen`).
- A Ready claim can lose its block. A deletion pass has the address released before it
  touches the pool, DHCP may give it to another claim, and a later pass over the first
  claim then removes it again: a retry after the finalizer write was refused
  (`StaleDeletion.RetriedDeletionTakesABlock`), or a pass over a cached copy of a claim that
  is gone (`StaleDeletion.ReadyClaimLosesItsBlock`). Over a whole run Ready claims keep
  their blocks exactly when no step takes a block that another claim needs
  (`PoolSafety.ReadyClaimsArePooledExactlyWhen`). A first pass never does; the pass that
  does began after an earlier one had sent its clean-up request, or with the claim gone
  (`PoolSafety.OnlyLaterPassesTakeBlocks`).
- After a sequence of requests every stored lease has its renewal loop exactly when each
  allocation that failed at its save was followed by a removal of its interface
  (`AgentLeases.LoopsMatchLeasesExactlyWhen`, and `AgentLeases.LeaseCanLackItsLoop`).
- Clean-up removes the address of the claim's *spec* from the registry, not the
  tracked one. When the two differ and the claim was the last one on its manager, a
  closed manager stays registered (`Tracking.CleanedUpIsValidExactlyWhen`, and
  `Tracking.CleanUpCanLeaveAClosedManager`).
- A lease stays honest about its expiration exactly when at least 60 s, two
  attempts, remain after half its lease time (`Renewal.LongEnoughIsExact`).
- Generated interface names collide exactly when two claim names agree, after
  sanitising, on their first ten characters (`ClaimRuns.GeneratedNamesCollideExactlyWhen`,
  and `ClaimRuns.GeneratedNamesCanCollide`).

## Model

| member | source | states |
|---|---|---|
| `Reconciliation.ExecutionsFollowTheScript` | internal/controller/publicipclaim_controller.go:95-394 | in every run, beside any other executions, stale reads and conflicts, the calls an execution makes are those of the straight-line script for the version it read and the outcomes it has seen: every branch, in order, with their arguments |
| `Reconciliation.ExecutionsPersistTheirScript` | internal/controller/publicipclaim_controller.go:95-394 | the versions an execution has written are, in order, the objects its script puts and the server accepts |
| `Reconciliation.VerificationDecides` | internal/controller/publicipclaim_controller.go:202-272 | an execution that finds a Ready claim in order never writes it; one that does not puts it back to Pending with interface and address empty, writes nothing else, and then takes the old address out of the pool |
| `Reconciliation.EventDecides` | internal/controller/publicipclaim_controller.go:150-199 | an execution that handles a router event leaves the status alone when the interface is there or none is recorded, and otherwise clears it before it clears the event |
| `Reconciliation.MachineFollowsScript` | internal/controller/publicipclaim_controller.go:106-385 | from its dispatch on the step machine makes the calls of the script, for every claim and every sequence of outcomes |
| `ClaimRuns.AllocationsAreBounded` | internal/controller/publicipclaim_controller.go:274-345 | with any number of concurrent executions, stale reads and failing or lost writes, the agent is called for an allocation at most once plus once per persisted reset of WanInterface |
| `ClaimRuns.ReadyIsWrittenByTheLockWinner` | internal/controller/publicipclaim_controller.go:330-385 | a claim turns Ready only by the execution whose WanInterface write won, directly on the version that write created, and with that interface |
| `ClaimRuns.LocksFollowResets` | internal/controller/publicipclaim_controller.go:175-251 | over every version history, lock-taking writes and resets alternate: their numbers differ by one exactly while WanInterface is set |
| `ClaimRuns.EveryVersionIsConsistent` | internal/controller/publicipclaim_controller.go:316-385 | in every version ever persisted AssignedIP is set exactly when the phase is Ready, and Ready implies an interface and a MAC address |
| `ClaimRuns.FinalizerPrecedesEffects` | internal/controller/publicipclaim_controller.go:138-148 | every execution on the allocation or pool path, and every allocation request ever made, stands on a persisted version with the finalizer; one request per such version |
| `ClaimRuns.DeletionFreezesStatus` | internal/controller/publicipclaim_controller.go:106-136 | from the version that requests deletion on, the status never changes, however stale the running executions are |
| `ClaimRuns.IntentIsOrderly` | internal/controller/publicipclaim_controller.go:138-385 | each write Reconcile may make, accepted on the latest version, keeps phase and address consistent, never unlocks without the finalizer and reaches Ready only from a won lock |
| `ClaimRuns.ContinueWritesIntent` | internal/controller/publicipclaim_controller.go:330-337 | an execution's step leaves the object alone or appends exactly its intended version, from a copy equal to the latest one |
| `ClaimRuns.StepKeeps` | internal/controller/publicipclaim_controller.go:95-394 | every step of the operator, the user and the API server keeps the version history and the executions' knowledge of it in order |
| `ClaimRuns.OutsideChanges` | internal/controller/publicipclaim_controller.go:939-965 | edits, router events and deletion requests change spec, event mark and deletion mark as asked and never the status; an object without finalizer goes at once |
| `ClaimRuns.GeneratedNameIsUsable` | internal/controller/publicipclaim_controller.go:596-609 | a configured name is used as it is; a generated one is "wan-" and at most ten characters of the claim's name, lower-cased, dashes for invalid ones, and passes the router's name check |
| `ClaimRuns.GeneratedNamesCollideExactlyWhen` | internal/controller/publicipclaim_controller.go:596-609 | two claims get one name exactly when their sanitised names agree up to the tenth character |
| `ClaimRuns.GeneratedNamesCanCollide` | internal/controller/publicipclaim_controller.go:316-320 | two claim names that differ in their eleventh character get one interface name |
| `Agreement.ReadyClaimHasItsLease` | internal/controller/publicipclaim_controller.go:342-385 | in every reachable state of operator and agent, crashes and restarts included, a Ready claim not being deleted has a lease with exactly its AssignedIP in the agent's state file, and in memory while the agent is up |
| `Agreement.WrittenIsGranted` | internal/controller/publicipclaim_controller.go:364-385 | whatever an execution writes, a Ready status is backed by a 201 answer with that interface and address |
| `Agreement.RequestsFollowCalls` | internal/controller/publicipclaim_controller.go:1049-1054 | the agent hears from an execution through its allocation and clean-up calls and through nothing else |
| `Agreement.StepKeeps` | internal/controller/publicipclaim_controller.go:342-385 | every operator and agent step, renewal writes of any loop included, keeps the link between claim versions, requests in flight, agent answers and stored addresses |
| `AgentHandlers.TwoGrantsNeedADeletion` | internal/agent/agent.go:145-176 | for every interleaving, at most one handler per interface is between acquire and release, and two 201 answers for an interface have a store deletion of it between them |
| `AgentHandlers.GrantedLeaseIsStored` | internal/agent/agent.go:158-176 | from a 201 until a deletion of that interface the lease is in the state file, and in memory while the agent is up |
| `AgentHandlers.StepKeeps` | internal/agent/agent.go:126-250 | every step of handlers, renewal loops, start-up verification, saves, crash and restart keeps mutual exclusion and the stored grants, and the granted addresses of interfaces that get no DELETE |
| `AgentHandlers.RenewalKeeps` | internal/agent/agent.go:558-606 | a loop that outlives everything but a crash and writes at any time never moves a lease that is not deleted to another address |
| `AgentHandlers.VerifyKeeps` | internal/agent/agent.go:392-458 | start-up verification of a stored lease, with the loop it starts, keeps grants and addresses |
| `AgentHandlers.RepliesMean` | internal/agent/agent.go:145-250 | over every run each answer is given for its reason; a 201 carries the address of a lease that is in the state file, a 204 means that the deletion is |
| `AgentHandlers.HandlersDoAnswer` | internal/agent/agent.go:158-176 | an operation that has its outcome is answered, with the right code, by the next step of its handler |
| `AgentHandlers.HandlersGoOn` | internal/agent/agent.go:145-156 | a request that meets no conflict takes the in-flight entry and goes on to allocation or release |
| `AgentHandlers.HandlersStore` | internal/agent/agent.go:343-389 | allocation and release change the store's map for their interface alone, and the entry is given back at the end |
| `AgentHandlers.EntriesAreHeld` | internal/agent/lease/types.go:113-134 | over every run an interface is in flight exactly while a handler holds it, so no entry is left behind |
| `AgentHandlers.GrantStartsALoop` | internal/agent/agent.go:347-348 | an allocation starts a loop on its lease exactly when its save has returned nil |
| `AgentHandlers.RenewalWrites` | internal/agent/agent.go:529-606 | a loop's write is what the store holds and the loop goes on with: Stale and otherwise unchanged, or Active for the acknowledged time |
| `AgentHandlers.StartUpComesFirst` | internal/agent/agent.go:78-93 | after a restart every stored lease is to be verified and requests wait for that |
| `AgentHandlers.VerificationStartsLoops` | internal/agent/agent.go:392-458 | each visit records its finding and starts a loop on the stored lease exactly when it was renewed |
| `AgentHandlers.AnswersKept` | internal/agent/agent.go:161-176 | a reply Created(ip) to a request was always preceded by its 201 event for the requested interface |
| `LeaseStore.StateFileIsASnapshot` | internal/agent/lease/types.go:137-163 | in every reachable state the file is whole and equals the store after some prefix of the updates made |
| `LeaseStore.StateFileNeverGoesBack` | internal/agent/lease/types.go:137-163 | between any two points of a run, crashes included, the updates reflected in the file only grow at the end |
| `LeaseStore.AcknowledgedUpdateSurvives` | internal/agent/lease/types.go:96-111 | an update that returned nil is in the file then and ever after, at its place |
| `LeaseStore.AcknowledgedLeaseIsReloaded` | internal/agent/lease/types.go:166-185 | after Set(l) returned nil, a crash and restart brings back exactly l unless a later update of its interface reached the file |
| `LeaseStore.RestartLoadsTheDurableState` | internal/agent/lease/types.go:166-185 | a restart always finds a loadable file and loads exactly what the durable updates describe |
| `LeaseStore.UndisturbedSaveSucceeds` | internal/agent/lease/types.go:137-163 | a save that nothing disturbs returns nil with the memory in the state file and the lock free |
| `LeaseStore.FailedSaveReturnsAnError` | internal/agent/lease/types.go:137-163 | a file operation that fails is the call's error, leaves the state file alone and frees the lock |
| `LeaseStore.LastUpdateDecides` | internal/agent/lease/types.go:96-111 | for each interface the last update made to it decides whether and with what the store holds it |
| `LeaseStore.StepKeeps` | internal/agent/lease/types.go:96-185 | every lock region, file operation, crash and restart keeps the store invariant and only extends history |
| `PoolSafety.ReadyClaimsArePooledExactlyWhen` | internal/controller/publicipclaim_controller.go:106-385 | over any number of claims, serial reconciles from copies of any age and failing or lost API calls: every Ready claim not being deleted has AssignedIP/32 in its pool throughout a run if and only if no step of the run takes a block that another claim needs |
| `PoolSafety.PoolsFollowCalls` | internal/controller/publicipclaim_controller.go:118-122 | the pools change with the pool calls of the executions, as those say, and with nothing else; an address is released with a clean-up call that gets through |
| `PoolSafety.StepKeeps` | internal/controller/publicipclaim_controller.go:106-385 | every step keeps the system sound, and keeps everyone pooled if and only if it is not such a removal |
| `PoolSafety.OnlyLaterPassesTakeBlocks` | internal/controller/publicipclaim_controller.go:106-132 | over every run, such a removal belongs to a deletion pass before whose beginning a clean-up request of the same claim had gone out, or the claim was gone |
| `PoolSafety.FirstPassTakesNothing` | internal/controller/publicipclaim_controller.go:106-122 | a pass that began while its claim existed and had not released its address takes no block that another claim needs |
| `PoolSafety.AddressesStayDistinct` | internal/controller/publicipclaim_controller.go:356-385 | over every run no two existing claims that have not released their addresses hold the same one |
| `PoolSafety.PoolEffectKeepsExactlyWhen` | internal/controller/publicipclaim_controller.go:118-122 | the pool update made with an execution's step leaves everyone pooled exactly when it does not take another claim's block |
| `PoolSafety.RemovingKeepsPooledExactlyWhen` | internal/controller/publicipclaim_controller.go:563-587 | taking a block out leaves everyone pooled exactly when no claim of that pool needs it |
| `StaleDeletion.RetriedDeletionTakesABlock` | internal/controller/publicipclaim_controller.go:106-132 | a run with fresh reads only to a Ready claim without its block, taken by the retried deletion of a claim that still exists and shows the same address |
| `StaleDeletion.ReadyClaimLosesItsBlock` | internal/controller/publicipclaim_controller.go:101-122 | a run to a Ready claim without its block, taken by a pass over a claim that is gone |
| `PoolBlocks.AppendIfMissing` | internal/controller/publicipclaim_controller.go:496-506 | the scan-and-append loop adds the block at the end exactly when it is missing |
| `PoolBlocks.RebuildWithout` | internal/controller/publicipclaim_controller.go:563-574 | the rebuild loop computes the removal and reports whether there was anything to remove |
| `PoolBlocks.Pools.EnsureIPInPool` | internal/controller/publicipclaim_controller.go:467-518 | what the pool holds after each outcome of the calls, success exactly when the block is known to be there, other pools untouched |
| `PoolBlocks.Pools.RemoveIPFromPool` | internal/controller/publicipclaim_controller.go:527-593 | what the pool holds after each outcome, success exactly when the block is known to be gone or the pool or the address is missing |
| `PoolBlocks.WithoutKeepsOthers` | internal/controller/publicipclaim_controller.go:563-574 | removal takes every copy of the block and keeps each other block as often as before |
| `PoolBlocks.WithoutKeepsOrder` | internal/controller/publicipclaim_controller.go:563-574 | removal commutes with splitting the pool anywhere, so it keeps the order |
| `PoolBlocks.RemovalIsIdempotent` | internal/controller/publicipclaim_controller.go:563-580 | removing twice is removing once |
| `PoolBlocks.EnsureThenRemove` | internal/controller/publicipclaim_controller.go:490-512 | adding an absent address and removing it restores the blocks |
| `PoolBlocks.EnsureKeepsDuplicateFree` | internal/controller/publicipclaim_controller.go:490-506 | adding keeps a pool free of duplicates and keeps what was there as a prefix |
| `PoolBlocks.BlockOfInjective` | internal/controller/publicipclaim_controller.go:496-496 | distinct addresses have distinct blocks |
| `Deletion.DeletionConverges` | internal/controller/publicipclaim_controller.go:106-136 | after any failing passes interleaved with anybody's pool edits, the pass that drops the finalizer leaves the pool that the others alone would have left, less the address's block; the claim's lease is gone if its clean-up got through, and no other lease is touched |
| `Deletion.FirstSuccessEqualsOneCleanPass` | internal/controller/publicipclaim_controller.go:106-136 | after any failing passes, lost replies included, the first pass without API error ends with the finalizer gone and the pool less the block; the lease is gone exactly if some pass's clean-up got through; passes that see the finalizer gone change nothing |
| `Deletion.PassReleases` | internal/controller/publicipclaim_controller.go:109-116 | a pass that runs gives the claim's lease back exactly if its clean-up gets through, and touches no other |
| `Deletion.PassFinishesExactlyWhen` | internal/controller/publicipclaim_controller.go:116-133 | a pass drops the finalizer exactly when the address is known to be out of the pool and the write takes effect, reached router or not |
| `Deletion.RunKeeps` | internal/controller/publicipclaim_controller.go:106-136 | any mix of passes and foreign edits differs from the edits alone by no more than a clean pass takes away |
| `Deletion.DroppingPassUnpools` | internal/controller/publicipclaim_controller.go:118-133 | no pass drops the finalizer before its pool removal is complete |
| `Deletion.EnsureThenWithout` | internal/controller/publicipclaim_controller.go:496-506 | a removal passes through anybody's addition, of the same address or another |
| `Deletion.Cluster.Reconcile` | internal/controller/publicipclaim_controller.go:106-136 | one pass as performed on finalizer, leases and pool equals the specified pass, with success exactly as specified and other pools untouched |
| `AgentLeases.Agent.AllocateLease` | internal/agent/agent.go:270-352 | all or nothing: success, exactly when every call worked, adds one interface, one stored and saved lease with the request's interface, parent and MAC and the offer's address, server and time, and one loop; failure leaves kernel, store and loops as they were when its removals work, save for the lease in memory after a failed save |
| `AgentLeases.Agent.CreateMacvlan` | internal/agent/network/config.go:98-131 | an existing interface is refused and untouched; a link that cannot be brought up is left only if deleting it fails |
| `AgentLeases.Agent.ReleaseLease` | internal/agent/agent.go:355-389 | the loop and the lease go in every case; the error is that of the save alone |
| `AgentLeases.Agent.Handle` | internal/agent/agent.go:145-250 | which answer is given exactly when, and what it says about store, file, loops and kernel; a 201 carries the offered address, which is the one stored and saved; in-flight entries are given back |
| `AgentLeases.Agent.Serve` | internal/agent/agent.go:145-250 | over any sequence of requests from empty, loops have leases, and leases have loops if and only if every allocation that ended at its save is followed by a removal of its interface |
| `AgentLeases.LoopsMatchLeasesExactlyWhen` | internal/agent/agent.go:327-351 | the same from any state in which they match |
| `AgentLeases.LeaseCanLackItsLoop` | internal/agent/agent.go:342-344 | a single allocation with a failed save leaves a lease without a loop |
| `AgentLeases.Agent.AllocateThenRelease` | internal/agent/agent.go:270-389 | release undoes a successful allocation: kernel, store, file and loops are as before |
| `AgentLeases.Agent.VerifyLeases` | internal/agent/agent.go:392-458 | for any stored map, a lease whose check did not error is Active exactly when its loop runs, exactly when it was renewed; keys, addresses and MACs stay, the renewal count grows for exactly those, and each lease records what was found |
| `AgentLeases.Store.Set` | internal/agent/lease/types.go:96-102 | the map is updated even when the save fails, the file only when it succeeds |
| `AgentLeases.Store.AcquireInflight` | internal/agent/lease/types.go:114-123 | succeeds exactly for an interface without an entry, which it then has |
| `Renewal.RenewalLoop.Fire` | internal/agent/agent.go:499-549 | one timer firing, RENEW, REBIND, backoff, on the loop's own variables equals the specified iteration |
| `Renewal.RenewalLoop.FireAll` | internal/agent/agent.go:497-549 | any number of firings on the loop's own variables equals the specified run |
| `Renewal.LeaseRecordsTheGrants` | internal/agent/agent.go:493-606 | after every run expiration, lease time, packets, server and count are exactly those of the acknowledgements in the answers, the lease is Active unless the last round failed, and the next round is at half the granted time or after the backoff |
| `Renewal.NeverActivePastTheServersGrant` | internal/agent/agent.go:493-606 | as long as the lease says Active, its next round and both attempts end before the server's own expiration |
| `Renewal.FailuresBackOff` | internal/agent/agent.go:493-547 | after k >= 1 failed rounds in a row the lease is Stale and the next round comes min(2^(k-1), 15) minutes later |
| `Renewal.SuccessResets` | internal/agent/agent.go:531-547 | after a successful round the lease is Active for the acknowledged time from the acknowledgement, and the next round comes at half of it |
| `Renewal.IdentityIsKept` | internal/agent/agent.go:558-606 | no run of RENEW and REBIND moves a lease to another interface, address, MAC or parent |
| `Renewal.NeverActivePastExpiration` | internal/agent/agent.go:493-547 | over every run, with at least 60 s after half of each lease time, the lease is at no instant Active at or after ExpiresAt |
| `Renewal.TimelineIsContiguous` | internal/agent/agent.go:493-547 | the stretches that the previous row speaks of cover the run from the grant to the present without a gap |
| `Renewal.LongEnoughIsExact` | internal/agent/agent.go:505-528 | the bound on the lease time is exact: below it two timed-out attempts leave the lease Active past expiration |
| `Renewal.FailedRoundsKeepComing` | internal/agent/agent.go:505-547 | in a run of failures rounds start at most 16 minutes apart |
| `Renewal.AttemptsBeforeExpiration` | internal/agent/agent.go:493-547 | in every run of failures the first round starts at half the lease time (T1 of section 4.4.5 of RFC 2131) and at least ceil((L - L/2) / 16 min) rounds start before expiration |
| `SshManager.CountersAlwaysAgree` | internal/ssh/manager.go:232-463 | in every interleaving, Close racing a reconnect included, the active counter plus pending increments minus pending decrements is 1 if connected and 0 if not, conn is set exactly when connected, and connected and reconnecting exclude each other |
| `SshManager.ExactlyOneMonitor` | internal/ssh/manager.go:206-405 | from Start to the next Close or cancellation exactly one goroutine owns monitoring in every reachable state, a keep-alive owner sees a live context, and nobody dereferences a nil one |
| `SshManager.NewManagerHasOneMonitor` | internal/ssh/manager.go:160-230 | the same for every manager from its construction on |
| `SshManager.OwnerSteps` | internal/ssh/manager.go:271-405 | each step of anyone leaves the owner in charge, or hands monitoring to the one goroutine it starts |
| `SshManager.AnsweringConnectionIsKept` | internal/ssh/manager.go:271-289 | over every run without Close, cancellation and a failing check, a connection stays up with its context and the manager never starts to reconnect |
| `SshManager.FailedCheckDrops` | internal/ssh/manager.go:279-340 | after a failing check the owner's next region disconnects and starts to reconnect |
| `SshManager.ConnectedExactlyWhen` | internal/ssh/manager.go:232-265 | in any state, the manager becomes connected by a successful dial alone and loses its connection by a drop or Close alone |
| `SshManager.DropsOnlyAfterFailure` | internal/ssh/manager.go:221-284 | a goroutine goes to drop the connection only when its check or Start's dial has failed |
| `SshManager.DropCancelsTheContext` | internal/ssh/manager.go:325-344 | the transition to reconnecting cancels the derived context it takes away |
| `SshManager.LoopsEndExactlyWhenDone` | internal/ssh/manager.go:285-405 | keep-alive and reconnect loops leave exactly when their context is done |
| `SshManager.CancellationReachesAll` | internal/ssh/manager.go:217-218 | cancelling the context given to Start ends the base context and all derived from it |
| `SshManager.CloseCancelsBoth` | internal/ssh/manager.go:429-454 | Close cancels both contexts it takes away |
| `SshManager.CloseReturnsExactlyWhen` | internal/ssh/manager.go:455-463 | Close returns exactly when both are cancelled and no loop is left |
| `SshManager.CloseCanStrayExactlyWhen` | internal/ssh/manager.go:429-464 | at every point of every run after Close's region, a continuation with a stray or crashed loop exists if and only if a goroutine still monitors and the base context is not cancelled yet or the goroutine is not backing off on it |
| `SshManager.CloseNeverSurelyStopsMonitoring` | internal/ssh/manager.go:429-454 | from every point of the owner there is a run in which Close has made both cancels and monitoring can still go astray |
| `SshManager.PromptCloseStopsExactlyWhenBackingOff` | internal/ssh/manager.go:429-454 | when the cancels follow the region at once, Close surely ends monitoring if and only if the owner is backing off |
| `Backoff.ReconnectLoop` | internal/ssh/manager.go:363-391 | the loop's waits over any number of failures, for any configured settings, in wrapping int64 arithmetic |
| `Backoff.WaitsDouble` | internal/ssh/manager.go:370-391 | while nothing overflows, wait 0 is the initial backoff and wait n is min(initial * 2^n, maximum) |
| `Backoff.OverflowFreeExactlyBelow62` | internal/ssh/manager.go:179-184 | for all int64 settings, defaults applied, no doubling ever overflows if and only if both are below 2^62 ns |
| `Backoff.DefaultWaits` | internal/ssh/manager.go:179-184 | without configuration wait n is min(2 s * 2^n, 60 s) |
| `Backoff.WaitsStaySmall` | internal/ssh/manager.go:386-391 | below that bound every wait is positive and below it too |
| `RebootDetection.UptimeMonitor.Watch` | internal/ssh/manager.go:312-320 | over any samples the events are exactly the falls of more than one second between consecutive samples |
| `RebootDetection.ReportedRebootHappened` | internal/ssh/manager.go:312-320 | for any boot history a reported reboot means a boot between the two samples |
| `RebootDetection.ReportsNeverExceedBoots` | internal/ssh/manager.go:312-320 | over a whole watch of any length the reports are at most the boots in that time |
| `RebootDetection.RebootReportedExactlyWhen` | internal/ssh/manager.go:312-320 | a boot between two samples is reported exactly when the two uptimes' boots are more than a second further apart than the samples |
| `RebootDetection.ControllerAgreesWithManager` | internal/controller/publicipclaim_controller.go:724-735 | the controller's whole-second test implies the manager's on the same samples and fires for every fall of at least two seconds |
| `Tracking.TrackingAlwaysAgrees` | internal/controller/publicipclaim_controller.go:875-984 | after any sequence of getSSHManager calls, address changes and clean-ups: the three claim maps have one key set, registered addresses are exactly those in use, each manager's HandlerCount is its number of claims, and it is closed exactly when it has none |
| `Tracking.EachClaimHasOneLiveHandler` | internal/controller/publicipclaim_controller.go:926-984 | after any such sequence, of all handlers at all managers ever created exactly one is the claim's, at the open manager registered for its address |
| `Tracking.AssignedIsValid` | internal/controller/publicipclaim_controller.go:875-984 | getSSHManager keeps that state valid and tracks the claim to the new address, for new, known and moved claims |
| `Tracking.CleanedUpIsValidExactlyWhen` | internal/controller/publicipclaim_controller.go:1056-1101 | clean-up drops the claim from all maps, and keeps the state valid if and only if the spec's address is the tracked one or another claim stays on the manager |
| `Tracking.CleanUpCanLeaveAClosedManager` | internal/controller/publicipclaim_controller.go:1083-1095 | a claim whose address was edited before its clean-up leaves a closed manager in the registry |
| `Tracking.HandlerCountIsClaimCount` | internal/ssh/manager.go:504-508 | in a valid state handlers and claims of a manager are in one-to-one correspondence |
| `Tracking.LastHandler` | internal/controller/publicipclaim_controller.go:1083-1095 | unregistering leaves a manager without handlers exactly when no other claim is tracked to it |
| `Tracking.ReleasedKeepsCore` | internal/controller/publicipclaim_controller.go:889-919 | leaving a manager disturbs no other claim and closes the manager exactly when nobody is left |
| `Tracking.ReleasedRegistry` | internal/ssh/registry.go:46-50 | removing an address keeps the registry equal to the addresses in use exactly when it is the tracked one or another claim stays |
| `Tracking.Tracker.GetOrCreate` | internal/ssh/registry.go:22-43 | the registered manager of the address, or a new registered one without handlers |
| `Tracking.Tracker.GetSSHManager` | internal/controller/publicipclaim_controller.go:813-984 | the call on the maps equals the specified assignment and keeps the state valid; without the secret nothing changes |
| `Tracking.Tracker.CleanupHandlers` | internal/controller/publicipclaim_controller.go:1056-1101 | the clean-up on the maps equals the specified one, and keeps the state valid for the tracked address |
| `ShellQuoting.QuotedArgumentScans` | internal/ssh/commands.go:24-29 | from any unquoted point and before any text, the quoted argument adds exactly its characters, all literal, to the current word and leaves the parser unquoted |
| `ShellQuoting.QuotedArgumentIsOneWord` | internal/ssh/commands.go:24-29 | between a word boundary and a delimiter it is exactly one word, and the tokens around it do not depend on it |
| `ShellQuoting.QuoteRoundTrip` | internal/ssh/commands.go:24-29 | parsing the quoted argument gives one word whose text is the argument, for every string |
| `ShellQuoting.QuoteInjective` | internal/ssh/commands.go:24-29 | distinct arguments have distinct quotations |
| `ShellQuoting.ValidNamesNeedNoQuoting` | internal/ssh/commands.go:12-22 | a valid interface name has no character that means anything to the shell |
| `ShellQuoting.InterfaceExistsTestsOnePath` | internal/ssh/commands.go:45-50 | for every name the existence test is one path word between fixed tokens |

## Left out

- Liveness: "a claim eventually becomes Ready" is not a theorem of this code (409 for a lease that is still stored, Failed only requeued, a claim with WanInterface but not Ready skipped).
- "No stray address in a pool": a router-event reset clears AssignedIP without a pool removal, and a failed last status write leaves the block behind; only Ready-implies-present is proved.
- Hypotheses of the agreement and pool models: claims of a router use distinct interface names; DHCP hands out no address that an existing claim holds whose clean-up request has not gone out; poolName and router host stay fixed; in the pool model reconciles are serial, and nobody but the operator edits or deletes a pool.
- `Agreement.ReadyClaimHasItsLease`: a claim that is deleted and re-created under its name gets the same interface; a late DELETE of the old object then hits the lease of the new one, and such successive claims of one interface are not covered.
- `SshManager.CloseCanStrayExactlyWhen`: the model is untimed; a keep-alive tick may be ready together with a done context and be chosen by the select, and a dial may succeed however late.
- `AgentLeases.Agent.ReleaseLease`: the renewal loop is parked at its select when it is cancelled.
- `AgentLeases.Agent.Handle`: request validation, JSON and the GET handlers are not modelled.
- `PoolSafety.ReadyClaimsArePooledExactlyWhen`: stated for serial reconciles; overlapping executions are covered by ClaimRuns, without pools.
- Data races on a shared lease object: changing its fields and calling Set is one map update.
- Store and SSH manager under concurrency are modelled on values, as machines over their lock regions, not as class methods: update in place and goroutine identity appear as steps and numbers.
- `Tracking.Tracker.GetSSHManager`: managers are entries of a numbered table instead of heap objects; a router address has one configuration identity, so the registry's inner map has one entry.
- `Tracking.Tracker.CleanupHandlers`: clean-ups that return early before line 1056 skip the unregistration and are not calls of this method.
- `Deletion.Cluster.Reconcile`: the agent's side of the clean-up is one best-effort outcome; handler unregistration is in Tracking.
- `Renewal.RenewalLoop.Fire`: the timer fires when due, an attempt takes at most 30 s, and an acknowledgement, its save and the timer reset fall on one instant.
- `RebootDetection.UptimeMonitor.Watch`: uptimes are reals; parsing and rounding of floats are not modelled.
- `ShellQuoting.QuotedArgumentScans`: the parser has single-character operators and performs no expansion; characters that the shell could still expand are marked as such.
- `ClaimRuns.GeneratedNameIsUsable`: names are over ASCII.
- `PoolBlocks.Pools.EnsureIPInPool`: a pool without a block list is one with an empty list, and blocks are maps, as the CRD demands.
- Registry CloseAll and Len, Store.UpdateInterfaceStatus, handleListLeases and handleGetLease add only easy members or have no caller.
- SSH and HTTP tunnelling, DHCP packets, netlink and procfs are outcomes given to each step.
- Gratuitous ARP frames, MAC generation, defaulting of ports, deep copies, conditions, events, logging, metrics other than the active counter, RBAC, CRD manifests and deployment are not part of this model.
