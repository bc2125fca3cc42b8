# Recovery, placement and port allocation of the orchestrator: a verified model

The controller keeps services running on a set of nodes. It deploys them, notices crashes, failing health checks and
silent nodes, restarts a service in place or moves it to another node, and publishes the active service through an
ingress file. Each node runs an agent that starts containers, probes them and reports. This project models both sides
and proves what they keep over every run.

How the model is laid out:

- `Models`, `Ordering`, `Scheduler`: the records, Python's order on strings and `sorted`, and the least-load scheduler.
- `Lifecycle`: the state of one service over all store tables and in-memory tables, and one function per handler that
  says what the handler does to it. The inputs of a handler are its report, the node table at its reads, and the outcome
  of each agent call. A `Run` is any sequence of such steps, so reports may be late, duplicated, reordered or lost.
- `SelfHealing`, `ServiceManager`, `Reconciler`, `StateStore`, `RedisStore`, `Ingress`, `WorkloadManager`, `Coalescing`:
  the classes of the source, method by method, with their fields updated in place. Every handler method is proved equal
  to the `Lifecycle` function of that handler and is shown to leave every other service alone.
- `HandlerOutcomes`: for each handler, exactly when it acts, whom it asks in which order, and every field it leaves,
  stated in terms of the records, reports and node tables and not of the handler's function.
- `SystemInvariant`, `StepFacts`, `RecoveryRuns`, `Resurrection`, and the last part of `Ingress`: theorems over all runs.
- `Coroutines`, `HandlerCode`, `HandlerDiscipline`, `Serialisability`, `ConcurrentRuns`, `RecoveryGuard`,
  `ConcurrentIngress`: the same handlers as coroutines, one atomic step per store call or agent call, interleaved without
  restriction under the lock table. The main theorem says that each service still goes through a `Run`, so that the
  theorems about the runs of one service hold of the concurrent controller. The safety of the upstream file, which is no
  part of a service's record, is carried over by `InterleavedIngressSafety`.
- `Workloads`, `HealthEvidence`, `AgentOutcomes`: the agent's port table as linear probing, what its failure count
  stands for, which workloads it keeps checking, and from which of its reports on the controller acts.

Times are integers, utilisations are reals, identifiers are strings compared by code point. The scheduler is a parameter
of the managers, as in the source; `LEAST_LOAD` is the one that `controller/main.py` wires in. Store calls are atomic and
do not fail. An agent call either succeeds or fails.

Where the code and the properties one would like to have part:

- `handle_node_unreachable` and `run_once` act on lists that were read before the lock was taken and do not look again. A
  node-unreachable handler that meets a service stopped in the meantime breaks the invariant; every other step keeps it.
  `StepKeepsInvariant` states this as an equivalence. `QuietStep` says exactly which steps start a stopped service;
  `OutdatedPendingListResurrects` and `OutdatedPlacementListResurrects` give the two histories.
- `RedisStateStore.upsert_node_heartbeat` drops a heartbeat close to the last written one whatever the status of the node
  is, although its comments say that a status change is always written. `ComesBackCondition` gives the exact bound on the
  write threshold for which a marked node still becomes healthy at its next heartbeat. The accepted settings allow a
  threshold of 60 seconds, above the default detection delay of 45.
- The agent's snapshot filter remembers a snapshot as sent even when the report was lost. The error bound holds for every
  history, with any losses, whose last report arrived. When the last report was lost, the bound survives until the next
  one exactly when the stored snapshot is within the store's threshold of the lost one; `BoundHoldsExactlyWhenStoreIsClose`
  says so for real-valued samples and `BoundHoldsExactlyForUtilisations`, which looks at the ends of the unit interval,
  for utilisations. `LostReportBreaksBound` is a history in which it does not.
- A deployment that names its port can collide. `NamedPortKeepsProbingExactly` says which named ports keep the port
  table in order: the one port that an automatic deployment would have got.
- The two stores list their logs differently for limits below one. `LogListingsAgree` is the exact condition.

## Model

| member | source | states |
|---|---|---|
| Serialisability.EveryInterleavingIsSerial | controller/state_store.py:454-461 | in every interleaving of handler steps, lock fetches, lock takings and node-table changes, each service's record equals the result of its handlers run whole, one at a time, in the order they took the lock; at most one handler of a service is inside |
| Serialisability.MoveKeeps | controller/state_store.py:115-122 | each single move of the event loop keeps that invariant, including the get-or-create of lock objects |
| Serialisability.RunStepKeeps | controller/self_healing.py:51-53 | one store call or agent call inside the lock is one step of the handler's solitary run, and no other service notices |
| Serialisability.TakeLockKeeps | controller/self_healing.py:127-129 | nobody else can be inside when a lock is taken, because a service has one lock and a lock one service |
| Serialisability.NoDeadlock | controller/service_manager.py:40-44 | as long as some handler has not left, some handler can move |
| HandlerCode.CodeMeans | controller/self_healing.py:51-237 | each handler, written call by call, ends in exactly the state its step function gives for the node tables it read, in the order of its reads |
| HandlerCode.CrashMeans | controller/self_healing.py:51-123 | the crash handler's calls, in their order and with every early exit, amount to `OnCrash` for the node tables it read |
| HandlerCode.HealthMeans | controller/self_healing.py:127-237 | the health handler's calls amount to `OnHealth`, although it gives up from the observation it read at its start |
| HandlerCode.UnreachableMeans | controller/self_healing.py:503-662 | the node-unreachable handler's calls amount to `OnUnreachable` |
| HandlerCode.RescheduleMeans | controller/self_healing.py:326-501 | the second node-table read decides where an exhausted service goes |
| HandlerCode.DeployMeans | controller/service_manager.py:46-142 | the deploy calls amount to `Deploy` |
| HandlerCode.StopMeans | controller/service_manager.py:149-191 | the stop calls amount to `Stop` |
| ConcurrentRuns.ServiceWentThroughARun | controller/self_healing.py:246-248 | whenever a service's lock is free, its record is the end of a run whose steps are, in order, the handlers that took the lock, each with the node tables it read |
| ConcurrentRuns.UnlockedServicesAreSound | controller/service_manager.py:40-44 | the system invariant holds of every unlocked service of the concurrent controller, unless a node-unreachable handler met it stopped |
| RecoveryGuard.GuardNeverRefuses | controller/self_healing.py:691-700 | in every interleaving, whenever a handler is about to try the per-generation recovery guard, the guard is free |
| RecoveryGuard.EveryLockCanBeReleased | controller/service_manager.py:42-44 | in every interleaving, a handler inside a lock can give it back within 24 steps of its own and the release |
| HandlerDiscipline.HandlersAreOrderly | controller/self_healing.py:82-123 | on every path a handler tries the guard only while it is free, frees it before it ends, writes neither observation nor placement after notifying the ingress, and ends within 24 steps |
| HandlerDiscipline.HandlersEnd | controller/self_healing.py:51-237 | run alone, whatever it reads, every handler has come to its end after at most 24 steps and left the guard free |
| SystemInvariant.StepKeepsInvariant | controller/self_healing.py:252-662 | no lost work, no wrong placement, stopped means stopped, observed generation 0 or current: kept by every step, and broken exactly by the node-unreachable step on a stopped service |
| SystemInvariant.RunKeepsInvariant | controller/service_manager.py:46-229 | the invariant holds along every run without that step |
| SystemInvariant.UnreachableResurrects | controller/self_healing.py:239-248 | that step always breaks "stopped means stopped", whatever the scheduler and agents answer |
| RecoveryRuns.AtMostOneRecoveryPerGeneration | controller/self_healing.py:65-76 | no two recoveries of a run leave the same generation |
| RecoveryRuns.TaggedReportsAreSpent | controller/self_healing.py:141-152 | after a recovery left generation g, a report tagged g changes nothing at any later point of any run |
| RecoveryRuns.GenerationCountsRecoveries | controller/self_healing.py:291-307 | the generation grows by exactly the number of successful recoveries |
| RecoveryRuns.GenerationMonotone | controller/self_healing.py:452-473 | the generation never decreases |
| RecoveryRuns.RecoveriesKeepTheirDistance | controller/self_healing.py:685-689 | successful report-triggered recoveries are at least the startup grace apart, with node-unreachable steps and API restarts between them |
| RecoveryRuns.HealthAttemptsCoolDown | controller/self_healing.py:179-199 | a health-triggered attempt is at least the cooldown after any earlier report-triggered attempt |
| RecoveryRuns.CooldownLasts | controller/self_healing.py:672-683 | only a healthy report ends a cooldown early |
| RecoveryRuns.BoundedChurn | controller/self_healing.py:79 | at most 1 + T/G successful report-triggered recoveries in T seconds for a startup grace G > 0 |
| RecoveryRuns.ChurnBoundIsTight | controller/self_healing.py:78-114 | crash reports exactly one startup grace apart are all answered by a restart while the budget lasts, so the bound cannot be improved |
| RecoveryRuns.RestartBudget | controller/self_healing.py:108-121 | between resets self-healing issues at most the maximum of agent restarts, the placement stays, and the generation grows by exactly the restarts that succeeded |
| RecoveryRuns.OneRestartPerStep | controller/self_healing.py:252-324 | no handler issues two restarts |
| RecoveryRuns.EscalationOrder | controller/self_healing.py:224-235 | counting from a reset, a counted attempt restarts in place exactly while the budget lasts and the node is known; every other counted attempt moves the service exactly when its reschedule succeeds, and raises the counter otherwise |
| RecoveryRuns.EscalationMoves | controller/self_healing.py:326-501 | an exhausted counted attempt moves the service exactly when another eligible node exists and its agent accepts; then it runs on a different healthy node with a fresh budget |
| RecoveryRuns.EscalationTerminates | controller/self_healing.py:107-121 | counting from a reset, a counted attempt after the maximum of others that meets another eligible node and an accepting agent moves the service to a different healthy node and resets the counter |
| RecoveryRuns.CounterCountsAttempts | controller/self_healing.py:107-121 | without a reset the counter is the number of counted attempts |
| StepFacts.StepFactsHold | controller/self_healing.py:252-501 | which effects a step can have together: recoveries, restarts, resets, generation, cooldown and startup grace |
| HandlerOutcomes.CrashActsExactly | controller/self_healing.py:51-80 | a crash report starts a recovery attempt if and only if it is about the current instance of a placed service that should run, the startup grace is over and no recovery of the generation is active; otherwise it changes nothing |
| HandlerOutcomes.HealthActsExactly | controller/self_healing.py:127-202 | a health report starts an attempt if and only if it is unhealthy, about the current instance, past the startup grace, at or above the threshold, not in a cooldown and not in an active recovery |
| HandlerOutcomes.HealthOtherwise | controller/self_healing.py:154-197 | every field after a health report that starts no attempt: a healthy one clears all traces of trouble, an unhealthy one marks a settled instance, any other changes nothing |
| HandlerOutcomes.AttemptOutcome | controller/self_healing.py:82-123 | every field and call of an attempt: restart on the placed node while the counter is below the maximum and the node is known, reschedule otherwise, give up without counting when a health report finds the node gone |
| HandlerOutcomes.DeployAfterRestartsLeaves | controller/self_healing.py:400-501 | the second half of a reschedule: the target agent deploys, then the old agent stops, then counter, recovery record and sync; or the service waits |
| HandlerOutcomes.UnreachableOutcome | controller/self_healing.py:503-662 | every field and call of the node-unreachable step in its four outcomes |
| HandlerOutcomes.DeployOutcome | controller/service_manager.py:46-142 | every field and call of a deployment in its five outcomes; an accepted one records container and node and drops the pending record |
| HandlerOutcomes.RetryOutcome | controller/service_manager.py:245-252 | a retry is a deployment of the stored specification, or drops the pending record when there is none |
| HandlerOutcomes.StopOutcome | controller/service_manager.py:149-191 | a stop asks exactly the agent of the placed node, if that node is known, before the sync, and records the stop whatever the agent answers |
| HandlerOutcomes.ApiRestartOutcome | controller/service_manager.py:198-229 | every field and call of an API restart; counter, generation, pending record and cooldown stay |
| Resurrection.NoResurrection | controller/service_manager.py:149-191 | after a stop, no continuation without a deploy request and with current lists ever asks an agent to deploy or restart the service |
| Resurrection.QuietStep | controller/reconciler.py:51-53 | on a stopped service a step starts work if and only if it is a deploy, a retry or a node-unreachable step that finds a node; reports, stop and API restart never do |
| Resurrection.OutdatedPendingListResurrects | controller/reconciler.py:51-53 | a service that waited for a node, was listed as pending and then stopped is started by the retry once a node exists |
| Resurrection.OutdatedPlacementListResurrects | controller/self_healing.py:239-248 | a service that was listed on its node and then stopped is started elsewhere by the node-unreachable handler for that entry |
| SelfHealing.SelfHealingManager.HandleCrashReport | controller/self_healing.py:51-123 | the method changes the service's record as `OnCrash` says, does anything at all exactly if the report is about the settled current instance and no recovery of its generation is active, logs the recovery it made, syncs the file if and only if it should, and touches no other service |
| SelfHealing.SelfHealingManager.HandleHealthReport | controller/self_healing.py:127-237 | the same for `OnHealth`; an unhealthy report leads to calls exactly if it is about the settled current instance, has at least the threshold of failures, and meets neither a cooldown nor an active recovery |
| SelfHealing.SelfHealingManager.HandleNodeUnreachable | controller/self_healing.py:239-248 | undisturbed, the loop hands exactly the services placed on the node to the node-unreachable step |
| SelfHealing.SelfHealingManager.RestartSameNode | controller/self_healing.py:252-324 | restart in place, with its failure path |
| SelfHealing.SelfHealingManager.RescheduleAfterExhaustedRestart | controller/self_healing.py:326-501 | reschedule after the budget, with its three failure paths |
| SelfHealing.SelfHealingManager.RescheduleFromUnreachableNode | controller/self_healing.py:503-662 | reschedule from a silent node, with its three failure paths |
| SelfHealing.SelfHealingManager.TryAcquireRecovery | controller/self_healing.py:691-697 | refuses exactly the generation that is being recovered |
| ServiceManagement.ServiceManager.Deploy | controller/service_manager.py:46-142 | deploy as `Deploy` says, for every scheduler and agent outcome; returns the stored observation, or raises exactly when the scheduler names an unknown node |
| ServiceManagement.ServiceManager.Stop | controller/service_manager.py:149-191 | stop as `Stop` says, whether or not the agent can be reached; the agent of the placed node, and no other, is asked to stop the container exactly if the node is known, before the ingress is synced; returns the stored observation |
| ServiceManagement.ServiceManager.Restart | controller/service_manager.py:198-229 | API restart, with which observation or which of the three errors the caller gets |
| ServiceManagement.ServiceManager.RetryPendingDeployment | controller/service_manager.py:245-252 | retry of a pending deployment; returns none without a desired state, the stored observation otherwise, or raises as the deployment does |
| Reconciliation.Reconciler.RunOnce | controller/reconciler.py:29-53 | an undisturbed pass marks exactly the healthy nodes whose heartbeat is too old and sweeps each of them; then each service with a pending record gets exactly one retry, in id order, and all others none; a retried service with a desired state ends up running exactly if it was, or a node of the final table is eligible and the agent accepts; at the end no running service is placed on a marked node, and every service still placed there has a pending record |
| Reconciliation.SweepStep | controller/self_healing.py:503-662 | handling one more dead node empties it of running services and refills none of those handled before |
| Reconciliation.EvacuationPlaces | controller/self_healing.py:503-662 | the node-unreachable step parks a placed service or puts it on a healthy node, which a later iteration may still find dead |
| Reconciliation.RetryPlaces | controller/service_manager.py:245-252 | a pending retry never puts a service on an unavailable node |
| Reconciliation.RetryRuns | controller/service_manager.py:245-252 | a retried service with a desired state ends up running exactly if it was running, or some node can host it and the agent accepts |
| Reconciliation.SweptElsewhere | controller/reconciler.py:37-49 | the sweeps of a pass leave a service alone that is on none of the dead nodes |
| Scheduler.ChooseNodeLeastLoad | controller/scheduler.py:46-83 | the loop and keyed minimum select a node that can host the service and undercuts every other such node of the list, and none exactly when there is none |
| Scheduler.ChoiceIsLexicographicMinimum | controller/scheduler.py:60-76 | the decision is the minimum of (load, memory, id) over the eligible nodes, and none exactly when no node is eligible |
| Scheduler.ChoiceOnSnapshots | controller/scheduler.py:23-76 | on the snapshots themselves: no utilisation of the selected node exceeds the larger one of any other candidate; on equal larger ones its memory utilisation is no larger; on equal memory its id comes first |
| Ordering.LessMeaning | controller/scheduler.py:66-73 | the order of ids is by the first differing character, a prefix first |
| Scheduler.ChoiceIgnoresListOrder | controller/scheduler.py:46-83 | list order, repetition and ineligible nodes do not matter |
| Scheduler.AddingANodeKeepsOrTakes | controller/scheduler.py:46-83 | adding a node leaves the decision or selects that node |
| Heartbeats.StoredHeartbeatLags | controller/state_store.py:131-184 | for any arrival order the stored heartbeat is the newest or lags it by less than the write threshold |
| Heartbeats.DetectionErrsByLessThanThreshold | controller/reconciler.py:31-43 | a node is found dead only if its newest heartbeat is older than the delay minus the threshold, and always if it is older than the delay |
| Heartbeats.NodeComesBack | controller/state_store.py:142-148 | with a threshold up to the delay plus one, the first heartbeat stamped at or after a marking makes the node healthy, whatever comes between |
| Heartbeats.ComesBackCondition | controller/state_store.py:142-160 | that holds if and only if the threshold is at most the delay plus one |
| Telemetry.AgentTelemetryService.SnapshotLoop | agent/app/services/telemetry.py:131-153 | the loop sends and remembers the reports of `Filtered` |
| Telemetry.FilteredMeaning | agent/app/services/telemetry.py:136-149 | the reports are samples, the last one is the one remembered, each differs from the one before by the threshold, and every sample is close to the last report at its time |
| Telemetry.LineSendsFiltered | agent/app/services/telemetry.py:136-149 | the sending end of the line from samples to stored snapshots is that loop, whatever is lost |
| Telemetry.SnapshotErrorBound | controller/state_store.py:186-205 | for every history with any losses, if the last report sent arrived, the stored snapshot is within agent threshold plus store threshold of the latest sample |
| Telemetry.BoundHoldsExactlyWhenStoreIsClose | agent/app/services/telemetry.py:147-149 | until the next report the bound holds if and only if the stored snapshot is within the store threshold of the last one sent, lost or not |
| Telemetry.BoundHoldsExactlyForUtilisations | agent/app/services/telemetry.py:136-149 | the same equivalence for samples in the unit interval |
| Telemetry.LostReportBreaksBound | agent/app/services/telemetry.py:87-96 | a history with one lost report after which the bound fails in every continuation whose samples stay near the lost one |
| Telemetry.NearOptimalPlacement | controller/scheduler.py:23-76 | the chosen node's true load is less than twice the bound above that of any healthy node with a stored snapshot and spare capacity, and it misses the minimum by less than the bound; nodes without a sample may be listed |
| StateStore.LogListingsAgree | controller/state_store.py:403-410 | the two stores list the same log entries exactly for positive limits and two coincidences |
| StateStore.LogKeepsTheNewest | controller/state_store.py:587-606 | a log holds the last entries up to its limit, the newest first |
| StoreRefinement.SideBySide | controller/state_store.py:514-611 | from the same dictionaries, every sequence of service operations gets the same replies from both stores |
| RedisKeys.ServiceKeysDistinct | controller/state_store.py:112-113 | the key encoding is injective for all service ids, also with ':' in them |
| RedisKeys.NodeKeyIsNoServiceKey | controller/state_store.py:139 | no node key is a service key |
| RedisKeys.CollectionKeysApart | controller/state_store.py:221-436 | the keys of index sets and logs differ from each other and from every document key |
| RedisStore.ServiceWriteAgrees | controller/state_store.py:238-349 | writing or deleting one key keeps keys and dictionaries in agreement |
| RedisStore.RedisStateStore.ListPlacements | controller/state_store.py:299-316 | index set plus keys list the placements as the dictionary would, sorted and complete |
| RedisStore.RedisStateStore.ListPendingDeployments | controller/state_store.py:334-349 | the same for pending records |
| RedisStore.RedisStateStore.UpsertNodeHeartbeat | controller/state_store.py:131-184 | the coalesced write, node by node |
| RedisStore.RedisStateStore.UpsertNodeSnapshot | controller/state_store.py:186-207 | the thresholded write, and the rejection of unknown nodes |
| Heartbeats.PlainRecordMeaning | controller/state_store.py:463-508 | over any history the uncoalesced node record exists from the first heartbeat on, holds the last valid address or "unknown", the last heartbeat's time and agent url, the last snapshot since it is known, and is healthy exactly if no marking came after it |
| Heartbeats.CoalescedRecordMeaning | controller/state_store.py:131-207 | over any history the coalesced record is the uncoalesced record of the events that are at least the threshold away from the last one written |
| NodeAddress.NormalizeIdempotent | controller/state_store.py:613-621 | an accepted address is accepted unchanged ever after |
| NodeAddress.NormalizeMeaning | controller/state_store.py:613-621 | the accepted address is the text without the blanks at its ends, unless that is empty or reads "unknown" in any case |
| Ingress.IngressSafety | controller/ingress_manager.py:67-106 | at every handler boundary of every run from an empty file, the file routes traffic only if the service is observed running |
| ConcurrentIngress.InterleavedIngressSafety | controller/ingress_manager.py:67-106 | the same in every interleaving of handlers of all services, whenever the active service's lock is free |
| ConcurrentIngress.VisitKeepsFileSafe | controller/ingress_manager.py:108-168 | a handler of the active service that started with a safe file and ran to its end leaves a safe file, wherever in its calls it notified the ingress manager |
| Ingress.LeavingRunningSyncs | controller/self_healing.py:281-288 | every handler that takes a service out of running syncs the ingress before it returns |
| Ingress.SyncIdempotent | controller/ingress_manager.py:159-168 | repeating a sync with the same decision writes nothing and logs nothing |
| Ingress.RenderInjective | controller/ingress_manager.py:170-177 | different targets give different files, so a changed target is always written |
| Ingress.DecisionMeaning | controller/ingress_manager.py:108-153 | for a running service placed on a known node the first usable one of 20 reads is published, and the file is kept only when no read succeeded at all |
| Ingress.UsableMeaning | controller/ingress_manager.py:134-147 | a read is usable exactly if the workload has a port and the advertised address is valid, or failing that the recorded one; the target is that address, a colon and the port |
| Ingress.PortTextMeaning | controller/ingress_manager.py:144-147 | the port is written in decimal digits without leading zeros |
| Ingress.SyncMeaning | controller/ingress_manager.py:67-106 | the exact text of the file after a sync, when it is written, and which event is logged when it changes |
| Ingress.IngressManager.ReadTarget | controller/ingress_manager.py:124-153 | the retry loop with its read_succeeded flag reaches that decision |
| Ingress.IngressManager.SyncService | controller/ingress_manager.py:67-106 | file and event log after a sync |
| Ports.ProbesEveryPortOnce | agent/app/services/workload_manager.py:252-254 | the probe sequence visits each port of the range exactly once |
| Ports.ProbesAreCyclic | agent/app/services/workload_manager.py:250-254 | probing starts at the place of the hash and goes on with the next port, after the last one with the first |
| Ports.FirstFreeMeaning | agent/app/services/workload_manager.py:253-259 | allocation is the first free port in cyclic order, and none exactly when all are used |
| Workloads.HistoryKeepsProbing | agent/app/services/workload_manager.py:39-75 | over any history of automatic deployments, stops, restarts and checks, ports are distinct and every port before a service's own in its probe order is held by another |
| Workloads.RedeployKeepsPort | agent/app/services/workload_manager.py:235-257 | redeploying a recorded service yields its previous port |
| Workloads.AllocationMeaning | agent/app/services/workload_manager.py:235-259 | a named port is taken as it is; otherwise the service gets the first port of its probe sequence that no other workload holds |
| Workloads.FailsExactlyWhenFull | agent/app/services/workload_manager.py:246-259 | allocation raises exactly when as many other workloads are recorded as there are ports, and never for a recorded service |
| Workloads.PortsInRange | agent/app/services/workload_manager.py:246-254 | every recorded port lies in the configured range |
| Workloads.NamedPortKeepsProbingExactly | agent/app/services/workload_manager.py:235-237 | a named port keeps the table in order if and only if it is the port an automatic deployment would get |
| HealthEvidence.FailureCountIsEvidence | agent/app/services/workload_manager.py:125-175 | failure count times retries is the length of the run of failed probes since the last success, deploy, restart or stop |
| HealthEvidence.ThresholdIsRespected | controller/self_healing.py:191-202 | a health report makes the controller ask an agent for something only if it is unhealthy and at the threshold |
| HealthEvidence.RecoveryIsBackedByProbes | agent/app/services/workload_manager.py:193-212 | every health-triggered recovery is backed by at least controller threshold times agent retries consecutive failed probes |
| AgentOutcomes.CheckOutcome | agent/app/services/workload_manager.py:125-175 | a workload is checked and reported exactly if it is running or unhealthy and has an address; no check takes a workload out of the checked ones; a failed one counts one failure |
| AgentOutcomes.CheckedExactlyWhileStarted | agent/app/services/workload_manager.py:39-175 | in every history a workload is checked exactly if its last command was a deployment or restart and not a stop |
| AgentOutcomes.FailingChecksCountUp | agent/app/services/workload_manager.py:156-174 | k failing checks in a row of a started workload with an address send k reports that count up by one, whatever happens to other workloads |
| AgentOutcomes.FailingChecksReachTheThreshold | controller/self_healing.py:191-202 | of the reports of such checks the controller acts on exactly those that have reached its threshold |
| WorkloadManagement.AgentWorkloadManager.EnsurePublishedPort | agent/app/services/workload_manager.py:235-259 | the probing loop computes `EnsuredPort` |
| WorkloadManagement.AgentWorkloadManager.Deploy | agent/app/services/workload_manager.py:39-75 | the workload table after a deployment; it is left alone exactly when the container recorded as running is the one the runtime knows, or when the deployment raises, and it is said when it does |
| WorkloadManagement.AgentWorkloadManager.Stop | agent/app/services/workload_manager.py:77-101 | a recorded workload is stopped with its failures cleared; stopping an unknown service succeeds, and nothing changes when the runtime fails |
| WorkloadManagement.AgentWorkloadManager.Restart | agent/app/services/workload_manager.py:103-123 | a recorded workload runs again with its failures cleared; restarting an unknown service raises |
| WorkloadManagement.AgentWorkloadManager.CheckWorkloadHealth | agent/app/services/workload_manager.py:193-212 | healthy exactly if one of the retries succeeds, with the exact sequence of answers it got |
| WorkloadManagement.AgentWorkloadManager.HealthCheckAll | agent/app/services/workload_manager.py:125-175 | the pass is one check per workload in id order on the records listed at its start, with exactly the reports of those checks; every workload ends as its own check leaves it |
| WorkloadManagement.PassMeaning | agent/app/services/workload_manager.py:125-175 | after a pass every workload is as its one check leaves it, and the reports are exactly those of the checks |
| WorkloadManagement.AgentStateStore.ListWorkloads | agent/app/core/state.py:44-50 | the workloads sorted by service id |

## Left out

- HTTP routing, JSON and its validation, Redis wire behaviour, the Docker SDK, logging and settings parsing.
- Exceptions of store writes in the middle of a handler: several invariants do not survive them, because for example the
  observation is written before the pending record. Store calls are atomic here, also where a Redis operation is two commands.
- "At most one container per service across nodes": the code does not maintain it, because a redeployment from a pending
  record does not stop an older container.
- The texts and details of events, and all event kinds but those of the ingress manager. Appending to the shared event log
  touches no service record and is not a step of the interleaved model; a recovery record is one of a handler's effects.
- nginx reload success and the running nginx configuration; only the content of the upstream file is modelled, and the
  reload is an input.
- The inside of a sync in the interleaved model: it is one step. Only the handlers of the active service write the file,
  they hold that service's lock, and no other handler changes what a sync reads of the service.
- Interleaving on the agent: its manager holds no lock across its awaits, so agent operations are modelled one at a time.
- A restart of the controller, which loses cooldowns and caches, and several controllers on one Redis.
- Floating-point rounding: utilisations are real numbers. The hash is an arbitrary function from ids to naturals.
- The timestamps of workload records; a handler that reads the clock more than once uses one time. The fields of a
  service specification that nothing modelled here reads.
- Node addresses beyond ASCII; the acknowledgement texts of the API; `get_local_state` of the agent, the event watcher,
  the resource sampler, the sleep between loop iterations.
- `get_restart_counter`, which the controller only shows to its users.
- Fairness of locks: `NoDeadlock` and `EveryLockCanBeReleased` say what can happen, not when it does.
- RecoveryRuns.BoundedChurn: requires that no healthy report, deploy, stop or retry of the service comes in between, because each of them ends the startup grace.
- Telemetry.NearOptimalPlacement: requires that each healthy node's last report arrived or had moved no further from the stored snapshot than the store threshold, because the agent does not learn of a lost one.
