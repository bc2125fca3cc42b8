// The imperative managers: `SelfHealingManager` of controller/self_healing.py, over the store, the agents and the
// ingress manager, proved against the functions of module Lifecycle.

module Agents {
  import opened Models
  import opened Lifecycle
  import Ingress

  /** The outcome of each kind of agent call in one handler. */
  datatype Outcomes = Outcomes(deployReply: DeployReply, restartOk: bool, stopOk: bool)

  function Env(nodes: seq<NodeState>, outcomes: Outcomes): Environment
  {
    Environment(nodes, nodes, outcomes.deployReply, outcomes.restartOk, outcomes.stopOk)
  }

  /** What a loop over several services meets at its k-th handler call. */
  datatype Reality = Reality(outcomes: nat -> Outcomes, answers: nat -> nat -> Ingress.LocalRead, reloadOk: nat -> bool)

  /** The agent client, with what the running handler has done so far. */
  class AgentClient {
    ghost var effects: seq<Effect>

    constructor ()
    {
      effects := [];
    }

    method Begin()
      modifies this
      ensures effects == []
    {
      effects := [];
    }

    method Did(ghost e: Effect)
      modifies this
      ensures effects == old(effects) + [e]
    {
      effects := effects + [e];
    }

    method Deploy(node: NodeState, spec: ServiceSpec, reply: DeployReply) returns (r: DeployReply)
      modifies this
      ensures r == reply && effects == old(effects) + [AgentDeploy(node.nodeId, reply.Accepted?)]
    {
      Did(AgentDeploy(node.nodeId, reply.Accepted?));
      r := reply;
    }

    method Restart(node: NodeState, outcome: bool, ghost healing: bool) returns (ok: bool)
      modifies this
      ensures ok == outcome && effects == old(effects) + [AgentRestart(node.nodeId, outcome, healing)]
    {
      Did(AgentRestart(node.nodeId, outcome, healing));
      ok := outcome;
    }

    method Stop(node: NodeState, outcome: bool) returns (ok: bool)
      modifies this
      ensures ok == outcome && effects == old(effects) + [AgentStop(node.nodeId, outcome)]
    {
      Did(AgentStop(node.nodeId, outcome));
      ok := outcome;
    }
  }
}

module SelfHealing {
  import opened Models
  import opened Lifecycle
  import opened Agents
  import opened NodeTable
  import opened Ordering
  import opened StepFacts
  import opened StateStore
  import opened Ingress
  import opened HandlerOutcomes

  /** The records of the instance a report is about. */
  datatype Instance = Instance(observed: ObservedState, desired: DesiredState, placement: Placement, generation: nat)

  class SelfHealingManager {
    const settings: Settings
    const store: InMemoryStateStore
    const agents: AgentClient
    const ingress: IngressManager
    const scheduler: Pick
    var cooldownUntil: map<ServiceId, Time>
    var activeRecovery: map<ServiceId, nat>

    constructor (settings: Settings, store: InMemoryStateStore, agents: AgentClient, ingress: IngressManager,
                 scheduler: Pick)
      ensures this.settings == settings && this.store == store && this.agents == agents && this.ingress == ingress
      ensures this.scheduler == scheduler && cooldownUntil == map[] && activeRecovery == map[]
    {
      this.settings, this.store, this.agents, this.ingress := settings, store, agents, ingress;
      this.scheduler, cooldownUntil, activeRecovery := scheduler, map[], map[];
    }

    /** The record of a service: the store's tables, the in-memory tables, and the running handler's effects. */
    ghost function View(s: ServiceId): Service
      reads this, store, agents
    {
      store.Record(s).(
        cooldownUntil := Lookup(cooldownUntil, s),
        activeRecovery := Lookup(activeRecovery, s),
        effects := agents.effects)
    }

    method SyncIngress(s: ServiceId, answers: Answers, reloadOk: bool)
      modifies agents, ingress`file, store`events
      requires ingress.store == store
      ensures agents.effects == old(agents.effects) + [IngressSync]
      ensures (old(store.Valid()) ==> store.Valid()) && forall x :: store.Record(x) == old(store.Record(x))
      ensures ingress.file == Synced(ingress.settings, old(ingress.file), s,
                                     Decide(store.Record(s), Listed(store.nodes), answers))
    {
      agents.Did(IngressSync);
      ingress.SyncService(s, answers, reloadOk);
    }

    method SetCooldown(s: ServiceId, at: Time)
      modifies this`cooldownUntil
      ensures cooldownUntil == old(cooldownUntil)[s := at + CooldownLength(settings)]
    {
      cooldownUntil := cooldownUntil[s := at + CooldownLength(settings)];
    }

    /** The recovery history gained exactly the record among the handler's effects, if there is one. */
    ghost predicate HistoryFollows(before: seq<RecoveryRecord>)
      reads store, agents
    {
      || (store.recoveryHistory == before && !Recovers(agents.effects))
      || (exists i :: 0 <= i < |agents.effects| && agents.effects[i].Recovered?
                      && store.recoveryHistory == Pushed(before, agents.effects[i].record, store.logLimit))
    }

    /** The upstream file was synced for this service if and only if a sync is among the handler's effects. */
    ghost predicate FileFollows(before: string, s: ServiceId, answers: Answers)
      reads store, agents, ingress
    {
      ingress.file == if Syncs(agents.effects)
                      then Synced(ingress.settings, before, s, Decide(store.Record(s), Listed(store.nodes), answers))
                      else before
    }

    /** The handler changed no other service, kept the store valid, and logged and synced what its effects say. */
    twostate predicate HandledOnly(s: ServiceId, answers: Answers)
      reads this, store, agents, ingress
    {
      && (old(store.Valid()) ==> store.Valid())
      && (forall x :: x != s ==> store.Record(x) == old(store.Record(x)))
      && HistoryFollows(old(store.recoveryHistory))
      && FileFollows(old(ingress.file), s, answers)
    }

    method GiveUp(s: ServiceId, reason: PendingReason, status: Status, node: NodeId, at: Time, answers: Answers,
                  reloadOk: bool)
      requires ingress.store == store
      modifies store`observed, store`pending, store`events, agents, ingress`file
      ensures View(s) == Lifecycle.GiveUp(old(View(s)), reason, status, node, at)
      ensures old(store.Valid()) ==> store.Valid()
      ensures forall x :: x != s ==> store.Record(x) == old(store.Record(x))
      ensures ingress.file == Synced(ingress.settings, old(ingress.file), s,
                                     Decide(store.Record(s), Listed(store.nodes), answers))
    {
      hide InMemoryStateStore.Record, InMemoryStateStore.Valid, Decide, Synced, Listed, Sorted;
      var observed := store.GetServiceObserved(s);
      store.SetPendingDeployment(PendingDeployment(s, reason, at));
      if observed.Some? {
        store.SetServiceObserved(s, observed.value.(status := status, health := IsUnhealthy, lastReportedAt := at));
      } else {
        store.SetServiceObserved(s, ObservedState(status, IsUnhealthy, None, Some(node), at, 0, None));
      }
      SyncIngress(s, answers, reloadOk);
    }

    /** `GiveUp` followed by the cooldown, as every failing report-triggered recovery ends. */
    method GiveUpAndCoolDown(s: ServiceId, reason: PendingReason, status: Status, node: NodeId, at: Time,
                             answers: Answers, reloadOk: bool)
      requires ingress.store == store && status != Running
      modifies store`observed, store`pending, store`events, agents, ingress`file, this`cooldownUntil
      ensures View(s) == Lifecycle.GiveUp(old(View(s)), reason, status, node, at).CoolDown(settings, at)
      ensures agents.effects == old(agents.effects) + [IngressSync]
      ensures cooldownUntil == old(cooldownUntil)[s := at + CooldownLength(settings)]
      ensures (old(store.Valid()) ==> store.Valid()) && forall x :: x != s ==> store.Record(x) == old(store.Record(x))
      ensures ingress.file == Synced(ingress.settings, old(ingress.file), s,
                                     Decide(store.Record(s), Listed(store.nodes), answers))
    {
      hide InMemoryStateStore.Record, InMemoryStateStore.Valid, Decide, Synced, Listed, Sorted, Lifecycle.GiveUp;
      GiveUpFacts(View(s), reason, status, node, at);
      GiveUp(s, reason, status, node, at, answers, reloadOk);
      SetCooldown(s, at);
    }

    method RestartSameNode(s: ServiceId, node: NodeState, at: Time, outcomes: Outcomes, answers: Answers,
                           reloadOk: bool)
      requires ingress.store == store && agents.effects == []
      modifies store`observed, store`pending, store`serviceGeneration, store`recoveryHistory, store`events
      modifies agents, ingress`file, this`cooldownUntil
      ensures View(s) == Lifecycle.RestartSameNode(settings, old(View(s)), node.nodeId, at,
                                                   Env(Listed(store.nodes), outcomes))
      ensures HandledOnly(s, answers)
      ensures cooldownUntil == old(cooldownUntil)[s := at + CooldownLength(settings)]
    {
      hide InMemoryStateStore.Record, InMemoryStateStore.Valid, Decide, Synced, Listed, Sorted, Lifecycle.GiveUp;
      hide RestartedOn, Pushed;
      var ok := agents.Restart(node, outcomes.restartOk, true);
      if !ok {
        GiveUpAndCoolDown(s, RestartFailed, Failed, node.nodeId, at, answers, reloadOk);
        assert agents.effects == [AgentRestart(node.nodeId, false, true), IngressSync];
        return;
      }
      FinishRestart(s, node.nodeId, at);
      SetCooldown(s, at);
      assert agents.effects[1].Recovered?;
    }

    method FinishRestart(s: ServiceId, nodeId: NodeId, at: Time)
      modifies store`observed, store`serviceGeneration, store`recoveryHistory, agents
      ensures View(s) == RestartedOn(settings, old(View(s)), nodeId, at)
      ensures old(store.Valid()) ==> store.Valid()
      ensures forall x :: x != s ==> store.Record(x) == old(store.Record(x))
      ensures agents.effects ==
        old(agents.effects) + [Recovered(RecoveryRecord(s, RestartedInPlace, nodeId, nodeId, at))]
      ensures store.recoveryHistory ==
        Pushed(old(store.recoveryHistory), RecoveryRecord(s, RestartedInPlace, nodeId, nodeId, at), store.logLimit)
    {
      hide InMemoryStateStore.Record, InMemoryStateStore.Valid, Listed, Sorted;
      var generation := store.IncrementServiceGeneration(s);
      var graceUntil := at + settings.startupGrace;
      var observed := store.GetServiceObserved(s);
      if observed.Some? {
        store.SetServiceObserved(s, observed.value.(
          health := Unknown, status := Running, lastReportedAt := at,
          generation := generation, startupGraceUntil := Some(graceUntil)));
      }
      var record := RecoveryRecord(s, RestartedInPlace, nodeId, nodeId, at);
      store.AddRecoveryRecord(record);
      agents.Did(Recovered(record));
    }

    /** Placement, counter, pending record and observation after a target agent accepted the service. */
    method MoveTo(s: ServiceId, target: NodeId, containerId: string, at: Time)
      modifies store`serviceGeneration, store`placement, store`restartCounter, store`pending, store`observed, agents
      ensures View(s) == MovedTo(settings, old(View(s)), target, containerId, at)
      ensures agents.effects == old(agents.effects) + [CounterReset]
      ensures old(store.Valid()) ==> store.Valid()
      ensures forall x :: x != s ==> store.Record(x) == old(store.Record(x))
    {
      hide InMemoryStateStore.Record, InMemoryStateStore.Valid;
      var generation := store.IncrementServiceGeneration(s);
      var graceUntil := at + settings.startupGrace;
      store.SetPlacement(Placement(s, target, at));
      store.ResetRestartCounter(s);
      agents.Did(CounterReset);
      store.PopPendingDeployment(s);
      store.SetServiceObserved(s, ObservedState(Running, Unknown, Some(containerId), Some(target), at, generation,
                                                Some(graceUntil)));
    }

    method RecordRecovery(s: ServiceId, record: RecoveryRecord)
      modifies store`recoveryHistory, agents
      ensures View(s) == old(View(s)).Did(Recovered(record))
      ensures store.recoveryHistory == Pushed(old(store.recoveryHistory), record, store.logLimit)
      ensures (old(store.Valid()) ==> store.Valid()) && forall x :: store.Record(x) == old(store.Record(x))
    {
      hide InMemoryStateStore.Record, InMemoryStateStore.Valid;
      store.AddRecoveryRecord(record);
      agents.Did(Recovered(record));
    }

    method FinishMove(s: ServiceId, target: NodeId, containerId: string, record: RecoveryRecord, at: Time, cool: bool,
                      answers: Answers, reloadOk: bool)
      requires ingress.store == store
      modifies store`observed, store`pending, store`placement, store`restartCounter, store`serviceGeneration
      modifies store`recoveryHistory, store`events, agents, ingress`file, this`cooldownUntil
      ensures var moved := MovedTo(settings, old(View(s)), target, containerId, at).Did(Recovered(record));
              View(s) == (if cool then moved.CoolDown(settings, at) else moved).Did(IngressSync)
      ensures cooldownUntil ==
        if cool then old(cooldownUntil)[s := at + CooldownLength(settings)] else old(cooldownUntil)
      ensures (old(store.Valid()) ==> store.Valid()) && forall x :: x != s ==> store.Record(x) == old(store.Record(x))
      ensures agents.effects == old(agents.effects) + [CounterReset, Recovered(record), IngressSync]
      ensures store.recoveryHistory == Pushed(old(store.recoveryHistory), record, store.logLimit)
      ensures ingress.file == Synced(ingress.settings, old(ingress.file), s,
                                     Decide(store.Record(s), Listed(store.nodes), answers))
    {
      hide InMemoryStateStore.Record, InMemoryStateStore.Valid, Decide, Synced, Listed, Sorted, MovedTo, Pushed;
      MoveTo(s, target, containerId, at);
      RecordRecovery(s, record);
      if cool {
        SetCooldown(s, at);
      }
      SyncIngress(s, answers, reloadOk);
    }

    method RescheduleAfterExhaustedRestart(s: ServiceId, current: NodeId, at: Time, outcomes: Outcomes,
                                           answers: Answers, reloadOk: bool)
      requires ingress.store == store && agents.effects == []
      modifies store`observed, store`pending, store`placement, store`restartCounter, store`serviceGeneration
      modifies store`recoveryHistory, store`events, agents, ingress`file, this`cooldownUntil
      ensures View(s) == RescheduleExhausted(settings, scheduler, old(View(s)), current, at,
                                             Env(Listed(store.nodes), outcomes))
      ensures HandledOnly(s, answers)
      ensures cooldownUntil == old(cooldownUntil)
        || cooldownUntil == old(cooldownUntil)[s := at + CooldownLength(settings)]
    {
      hide InMemoryStateStore.Record, InMemoryStateStore.Valid, Decide, Synced, Listed, Sorted, FindNode, WithoutNode;
      hide Lifecycle.GiveUp, DeployAfterRestarts, DeployFromUnreachable, ParkedWithoutNode, Pushed;
      var desired := store.GetServiceDesired(s);
      if desired.None? {
        return;
      }
      var nodes := store.ListNodes();
      var choice := scheduler(desired.value.service, WithoutNode(nodes, current));
      var target := if choice.None? then None else FindNode(nodes, choice.value);
      if target.None? {
        var reason := if choice.None? then RestartExhaustedNoCandidate else RestartExhaustedTargetGone;
        GiveUpAndCoolDown(s, reason, Pending, current, at, answers, reloadOk);
        assert agents.effects == [IngressSync];
        return;
      }
      DeployAfterRestart(s, current, nodes, target.value, desired.value.service, at, outcomes, answers, reloadOk);
    }

    method DeployAfterRestart(s: ServiceId, current: NodeId, nodes: seq<NodeState>, target: NodeState,
                              spec: ServiceSpec,
                              at: Time, outcomes: Outcomes, answers: Answers, reloadOk: bool)
      requires ingress.store == store && agents.effects == []
      modifies store`observed, store`pending, store`placement, store`restartCounter, store`serviceGeneration
      modifies store`recoveryHistory, store`events, agents, ingress`file, this`cooldownUntil
      ensures View(s) == DeployAfterRestarts(settings, old(View(s)), current, target.nodeId, at, Env(nodes, outcomes))
      ensures HandledOnly(s, answers)
      ensures cooldownUntil == old(cooldownUntil)[s := at + CooldownLength(settings)]
    {
      hide InMemoryStateStore.Record, InMemoryStateStore.Valid, Decide, Synced, Listed, Sorted, FindNode, MovedTo;
      hide Pushed, Lifecycle.GiveUp;
      var reply := agents.Deploy(target, spec, outcomes.deployReply);
      if reply.Refused? {
        GiveUpAndCoolDown(s, RestartExhaustedDeployFailed, Failed, current, at, answers, reloadOk);
        assert agents.effects == [AgentDeploy(target.nodeId, false), IngressSync];
        return;
      }
      AcceptedAfterRestart(s, current, nodes, target.nodeId, reply.containerId, at, outcomes.stopOk, answers, reloadOk);
    }

    method AcceptedAfterRestart(s: ServiceId, current: NodeId, nodes: seq<NodeState>, target: NodeId,
                                containerId: string,
                                at: Time, stopOk: bool, answers: Answers, reloadOk: bool)
      requires ingress.store == store && agents.effects == [AgentDeploy(target, true)]
      modifies store`observed, store`pending, store`placement, store`restartCounter, store`serviceGeneration
      modifies store`recoveryHistory, store`events, agents, ingress`file, this`cooldownUntil
      ensures var stopped := if FindNode(nodes, current).None? then old(View(s))
                             else old(View(s)).Did(AgentStop(current, stopOk));
              View(s) == MovedTo(settings, stopped, target, containerId, at)
                           .Did(Recovered(RecoveryRecord(s, RescheduledAfterRestarts, current, target, at)))
                           .CoolDown(settings, at).Did(IngressSync)
      ensures HandledOnly(s, answers)
      ensures cooldownUntil == old(cooldownUntil)[s := at + CooldownLength(settings)]
    {
      hide InMemoryStateStore.Record, InMemoryStateStore.Valid, Decide, Synced, Listed, Sorted, FindNode, MovedTo;
      hide Pushed;
      var previous := FindNode(nodes, current);
      if previous.Some? {
        var stopped := agents.Stop(previous.value, stopOk);
      }
      var record := RecoveryRecord(s, RescheduledAfterRestarts, current, target, at);
      ghost var n := |agents.effects|;
      FinishMove(s, target, containerId, record, at, true, answers, reloadOk);
      assert agents.effects[n + 1] == Recovered(record) && agents.effects[n + 2] == IngressSync;
    }

    /** The node is gone and no other is eligible: the observation forgets its node. */
    method ParkWithoutNode(s: ServiceId, at: Time, answers: Answers, reloadOk: bool)
      requires ingress.store == store
      modifies store`observed, store`pending, store`events, agents, ingress`file
      ensures View(s) == ParkedWithoutNode(old(View(s)), at)
      ensures agents.effects == old(agents.effects) + [IngressSync]
      ensures (old(store.Valid()) ==> store.Valid()) && forall x :: x != s ==> store.Record(x) == old(store.Record(x))
      ensures ingress.file == Synced(ingress.settings, old(ingress.file), s,
                                     Decide(store.Record(s), Listed(store.nodes), answers))
    {
      hide InMemoryStateStore.Record, InMemoryStateStore.Valid, Decide, Synced, Listed, Sorted;
      var observed := store.GetServiceObserved(s);
      store.SetPendingDeployment(PendingDeployment(s, UnreachableNoCandidate, at));
      if observed.Some? {
        store.SetServiceObserved(s, observed.value.(status := Pending, health := Unknown, nodeId := None,
                                                    lastReportedAt := at));
      } else {
        store.SetServiceObserved(s, ObservedState(Pending, Unknown, None, None, at, 0, None));
      }
      SyncIngress(s, answers, reloadOk);
    }

    /** No node was chosen, or the chosen one is not in the table. */
    method ParkUnreachable(s: ServiceId, noChoice: bool, nodeId: NodeId, at: Time, answers: Answers, reloadOk: bool)
      requires ingress.store == store
      modifies store`observed, store`pending, store`events, agents, ingress`file
      ensures View(s) == if noChoice then ParkedWithoutNode(old(View(s)), at)
                         else Lifecycle.GiveUp(old(View(s)), UnreachableTargetGone, Pending, nodeId, at)
      ensures agents.effects == old(agents.effects) + [IngressSync]
      ensures (old(store.Valid()) ==> store.Valid()) && forall x :: x != s ==> store.Record(x) == old(store.Record(x))
      ensures ingress.file == Synced(ingress.settings, old(ingress.file), s,
                                     Decide(store.Record(s), Listed(store.nodes), answers))
    {
      hide InMemoryStateStore.Record, InMemoryStateStore.Valid, Decide, Synced, Listed, Sorted, Lifecycle.GiveUp;
      hide ParkedWithoutNode;
      if noChoice {
        ParkWithoutNode(s, at, answers, reloadOk);
      } else {
        GiveUpFacts(View(s), UnreachableTargetGone, Pending, nodeId, at);
        GiveUp(s, UnreachableTargetGone, Pending, nodeId, at, answers, reloadOk);
      }
    }

    /** `_reschedule_from_unreachable_node` for a placement listed before the lock was taken. */
    method RescheduleFromUnreachableNode(listed: Placement, at: Time, outcomes: Outcomes, answers: Answers,
                                         reloadOk: bool)
      requires ingress.store == store && agents.effects == []
      modifies store`observed, store`pending, store`placement, store`restartCounter, store`serviceGeneration
      modifies store`recoveryHistory, store`events, agents, ingress`file, this`cooldownUntil
      ensures cooldownUntil == old(cooldownUntil)
      ensures var s := listed.serviceId;
              View(s) == OnUnreachable(settings, scheduler, old(View(s)), listed, at,
                                       Env(Listed(store.nodes), outcomes))
      ensures HandledOnly(listed.serviceId, answers)
    {
      hide InMemoryStateStore.Record, InMemoryStateStore.Valid, Decide, Synced, Listed, Sorted, FindNode, WithoutNode;
      hide DeployAfterRestarts, DeployFromUnreachable, ParkedWithoutNode, Pushed, Lifecycle.GiveUp;
      var s := listed.serviceId;
      var desired := store.GetServiceDesired(s);
      if desired.None? {
        return;
      }
      var nodes := store.ListNodes();
      var choice := scheduler(desired.value.service, WithoutNode(nodes, listed.nodeId));
      var target := if choice.None? then None else FindNode(nodes, choice.value);
      if target.None? {
        ParkUnreachable(s, choice.None?, listed.nodeId, at, answers, reloadOk);
        assert agents.effects == [IngressSync];
        return;
      }
      DeployFromUnreachableNode(s, listed, target.value, desired.value.service, at, outcomes, answers, reloadOk);
    }

    method DeployFromUnreachableNode(s: ServiceId, listed: Placement, target: NodeState, spec: ServiceSpec,
                                     at: Time, outcomes: Outcomes, answers: Answers, reloadOk: bool)
      requires ingress.store == store && agents.effects == []
      modifies store`observed, store`pending, store`placement, store`restartCounter, store`serviceGeneration
      modifies store`recoveryHistory, store`events, agents, ingress`file, this`cooldownUntil
      ensures cooldownUntil == old(cooldownUntil)
      ensures View(s) == DeployFromUnreachable(settings, old(View(s)), listed, target.nodeId, at,
                                               Env(Listed(store.nodes), outcomes))
      ensures HandledOnly(s, answers)
    {
      hide InMemoryStateStore.Record, InMemoryStateStore.Valid, Decide, Synced, Listed, Sorted, MovedTo, Pushed;
      var reply := agents.Deploy(target, spec, outcomes.deployReply);
      if reply.Refused? {
        GiveUp(s, UnreachableDeployFailed, Failed, listed.nodeId, at, answers, reloadOk);
        assert agents.effects == [AgentDeploy(target.nodeId, false), IngressSync];
        return;
      }
      var record := RecoveryRecord(s, RescheduledFromUnreachable, listed.nodeId, target.nodeId, at);
      FinishMove(s, target.nodeId, reply.containerId, record, at, false, answers, reloadOk);
      assert agents.effects[2] == Recovered(record) && agents.effects[3] == IngressSync;
    }

    /** The reads and guards both report handlers begin with. */
    method ReadCurrent(s: ServiceId, nodeId: NodeId, tag: Option<int>) returns (r: Option<Instance>)
      ensures r.Some? <==> ReportIsCurrent(View(s), nodeId, tag)
      ensures r.Some? ==>
        && View(s).observed == Some(r.value.observed) && View(s).desired == Some(r.value.desired)
        && View(s).placement == Some(r.value.placement) && View(s).generation == r.value.generation
        && (store.Valid() ==> r.value.desired.service.serviceId == s)
    {
      hide InMemoryStateStore.Record, InMemoryStateStore.Valid;
      var observed := store.GetServiceObserved(s);
      if observed.None? {
        return None;
      }
      var desired := store.GetServiceDesired(s);
      var placement := store.GetPlacement(s);
      if desired.None? || desired.value.status == Stopped || placement.None? {
        return None;
      }
      if placement.value.nodeId != nodeId {
        return None;
      }
      var generation := store.GetServiceGeneration(s);
      if tag.Some? && tag.value != generation {
        return None;
      }
      r := Some(Instance(observed.value, desired.value, placement.value, generation));
    }

    method TryAcquireRecovery(s: ServiceId, generation: nat) returns (acquired: bool)
      modifies this`activeRecovery
      ensures acquired == (Lookup(old(activeRecovery), s) != Some(generation))
      ensures activeRecovery == if acquired then old(activeRecovery)[s := generation] else old(activeRecovery)
    {
      acquired := !(s in activeRecovery && activeRecovery[s] == generation);
      if acquired {
        activeRecovery := activeRecovery[s := generation];
      }
    }

    method ReleaseRecovery(s: ServiceId)
      modifies this`activeRecovery
      ensures activeRecovery == old(activeRecovery) - {s}
    {
      activeRecovery := activeRecovery - {s};
    }

    method RecoverFromCrash(s: ServiceId, observed: ObservedState, placement: Placement, at: Time, outcomes: Outcomes,
                            answers: Answers, reloadOk: bool)
      requires ingress.store == store && agents.effects == []
      requires View(s).observed == Some(observed) && View(s).placement == Some(placement)
      modifies store`observed, store`pending, store`placement, store`restartCounter, store`serviceGeneration
      modifies store`recoveryHistory, store`events, agents, ingress`file, this`cooldownUntil
      ensures View(s) == CrashRecovery(settings, scheduler, old(View(s)), at, Env(Listed(store.nodes), outcomes))
      ensures HandledOnly(s, answers)
      ensures cooldownUntil == old(cooldownUntil)
        || cooldownUntil == old(cooldownUntil)[s := at + CooldownLength(settings)]
    {
      hide InMemoryStateStore.Record, InMemoryStateStore.Valid, Decide, Synced, Listed, Sorted, FindNode;
      hide Lifecycle.RestartSameNode, RescheduleExhausted, HistoryFollows, FileFollows;
      store.SetServiceObserved(s, observed.(health := IsUnhealthy, lastReportedAt := at));
      var restarts := store.IncrementRestartCounter(s);
      var nodes := store.ListNodes();
      var current := FindNode(nodes, placement.nodeId);
      if restarts <= settings.maxRestartAttempts && current.Some? {
        RestartSameNode(s, current.value, at, outcomes, answers, reloadOk);
      } else {
        RescheduleAfterExhaustedRestart(s, placement.nodeId, at, outcomes, answers, reloadOk);
      }
    }

    method HandleCrashReport(s: ServiceId, report: CrashReport, outcomes: Outcomes, answers: Answers, reloadOk: bool)
      requires ingress.store == store
      modifies store`observed, store`pending, store`placement, store`restartCounter, store`serviceGeneration
      modifies store`recoveryHistory, store`events, agents, ingress`file, this`cooldownUntil
      modifies this`activeRecovery
      ensures View(s) == OnCrash(settings, scheduler, old(View(s)).(effects := []), report,
                                 Env(Listed(store.nodes), outcomes))
      ensures agents.effects != [] <==> CrashCalls(old(View(s)), report)
      ensures HandledOnly(s, answers)
      ensures cooldownUntil - {s} == old(cooldownUntil) - {s} && activeRecovery - {s} == old(activeRecovery) - {s}
    {
      hide InMemoryStateStore.Record, InMemoryStateStore.Valid, Decide, Synced, Listed, Sorted, FindNode, CrashRecovery;
      hide CrashCalls;
      CrashActsExactly(settings, scheduler, View(s), report, Env(Listed(store.nodes), outcomes));
      agents.Begin();
      var current := ReadCurrent(s, report.nodeId, report.generation);
      if current.None? {
        return;
      }
      var Instance(observed, desired, placement, generation) := current.value;
      if InStartupGrace(observed, report.occurredAt) {
        return;
      }
      var acquired := TryAcquireRecovery(s, generation);
      if !acquired {
        return;
      }
      RecoverFromCrash(s, observed, placement, report.occurredAt, outcomes, answers, reloadOk);
      ReleaseRecovery(s);
    }

    method RecoverFromUnhealthy(s: ServiceId, placement: Placement, at: Time, outcomes: Outcomes,
                                answers: Answers, reloadOk: bool)
      requires ingress.store == store && agents.effects == []
      requires View(s).placement == Some(placement)
      modifies store`observed, store`pending, store`placement, store`restartCounter, store`serviceGeneration
      modifies store`recoveryHistory, store`events, agents, ingress`file, this`cooldownUntil
      ensures View(s) == HealthRecovery(settings, scheduler, old(View(s)), at, Env(Listed(store.nodes), outcomes))
      ensures HandledOnly(s, answers)
      ensures cooldownUntil == old(cooldownUntil)
        || cooldownUntil == old(cooldownUntil)[s := at + CooldownLength(settings)]
    {
      hide InMemoryStateStore.Record, InMemoryStateStore.Valid, Decide, Synced, Listed, Sorted, FindNode;
      hide Lifecycle.RestartSameNode, RescheduleExhausted, Lifecycle.GiveUp;
      var nodes := store.ListNodes();
      var current := FindNode(nodes, placement.nodeId);
      if current.None? {
        GiveUpAndCoolDown(s, CurrentNodeMissing, Pending, placement.nodeId, at, answers, reloadOk);
        assert agents.effects == [IngressSync];
        return;
      }
      var restarts := store.IncrementRestartCounter(s);
      if restarts <= settings.maxRestartAttempts {
        RestartSameNode(s, current.value, at, outcomes, answers, reloadOk);
        return;
      }
      RescheduleAfterExhaustedRestart(s, current.value.nodeId, at, outcomes, answers, reloadOk);
    }

    method MarkHealthy(s: ServiceId, observed: ObservedState, desired: DesiredState, at: Time)
      requires desired.service.serviceId == s && agents.effects == []
      modifies store`observed, store`pending, store`restartCounter, store`desired, agents, this`cooldownUntil
      ensures View(s) == MarkedHealthy(old(View(s)), observed, desired, at)
      ensures (old(store.Valid()) ==> store.Valid()) && forall x :: x != s ==> store.Record(x) == old(store.Record(x))
      ensures cooldownUntil == old(cooldownUntil) - {s} && agents.effects == [CounterReset]
    {
      hide InMemoryStateStore.Record, InMemoryStateStore.Valid;
      store.PopPendingDeployment(s);
      store.ResetRestartCounter(s);
      agents.Did(CounterReset);
      cooldownUntil := cooldownUntil - {s};
      store.SetServiceObserved(s, observed.(health := IsHealthy, status := Running, lastReportedAt := at,
                                            startupGraceUntil := None));
      store.SetServiceDesired(desired.(status := Running, updatedAt := at));
    }

    method HandleUnhealthy(s: ServiceId, observed: ObservedState, placement: Placement, generation: nat,
                           report: HealthReport,
                           outcomes: Outcomes, answers: Answers, reloadOk: bool)
      requires ingress.store == store && agents.effects == []
      requires View(s).placement == Some(placement) && View(s).generation == generation
      modifies store`observed, store`pending, store`placement, store`restartCounter, store`serviceGeneration
      modifies store`recoveryHistory, store`events, agents, ingress`file, this`cooldownUntil, this`activeRecovery
      ensures View(s) == OnUnhealthy(settings, scheduler, old(View(s)), observed, report,
                                     Env(Listed(store.nodes), outcomes))
      ensures HandledOnly(s, answers)
      ensures cooldownUntil - {s} == old(cooldownUntil) - {s} && activeRecovery - {s} == old(activeRecovery) - {s}
    {
      hide InMemoryStateStore.Record, InMemoryStateStore.Valid, Decide, Synced, Listed, Sorted, FindNode;
      hide GuardedHealthRecovery;
      if InStartupGrace(observed, report.observedAt) {
        return;
      }
      store.SetServiceObserved(s, observed.(health := IsUnhealthy, lastReportedAt := report.observedAt));
      if report.consecutiveFailures < settings.healthCheckRetries || IsInCooldown(s, report.observedAt) {
        return;
      }
      GuardedRecovery(s, placement, generation, report.observedAt, outcomes, answers, reloadOk);
    }

    /** Recovery under the guard that admits one recovery per generation at a time. */
    method GuardedRecovery(s: ServiceId, placement: Placement, generation: nat, at: Time,
                           outcomes: Outcomes, answers: Answers, reloadOk: bool)
      requires ingress.store == store && agents.effects == []
      requires View(s).placement == Some(placement) && View(s).generation == generation
      modifies store`observed, store`pending, store`placement, store`restartCounter, store`serviceGeneration
      modifies store`recoveryHistory, store`events, agents, ingress`file, this`cooldownUntil, this`activeRecovery
      ensures View(s) == GuardedHealthRecovery(settings, scheduler, old(View(s)), at,
                                               Env(Listed(store.nodes), outcomes))
      ensures HandledOnly(s, answers)
      ensures cooldownUntil - {s} == old(cooldownUntil) - {s} && activeRecovery - {s} == old(activeRecovery) - {s}
    {
      hide InMemoryStateStore.Record, InMemoryStateStore.Valid, Decide, Synced, Listed, Sorted, FindNode;
      hide HealthRecovery;
      var acquired := TryAcquireRecovery(s, generation);
      if !acquired {
        return;
      }
      RecoverFromUnhealthy(s, placement, at, outcomes, answers, reloadOk);
      ReleaseRecovery(s);
    }

    method HandleHealthReport(s: ServiceId, report: HealthReport, outcomes: Outcomes, answers: Answers, reloadOk: bool)
      requires ingress.store == store && store.Valid()
      modifies store`observed, store`pending, store`placement, store`restartCounter, store`serviceGeneration
      modifies store`recoveryHistory, store`events, agents, ingress`file, this`cooldownUntil
      modifies store`desired, this`activeRecovery
      ensures View(s) == OnHealth(settings, scheduler, old(View(s)).(effects := []), report,
                                  Env(Listed(store.nodes), outcomes))
      ensures !report.healthy ==> (agents.effects != [] <==> HealthCalls(settings, old(View(s)), report))
      ensures HandledOnly(s, answers)
      ensures cooldownUntil - {s} == old(cooldownUntil) - {s} && activeRecovery - {s} == old(activeRecovery) - {s}
    {
      hide InMemoryStateStore.Record, InMemoryStateStore.Valid, Decide, Synced, Listed, Sorted, FindNode, OnUnhealthy;
      hide MarkedHealthy, HealthCalls;
      HealthActsExactly(settings, scheduler, View(s), report, Env(Listed(store.nodes), outcomes));
      agents.Begin();
      var current := ReadCurrent(s, report.nodeId, report.generation);
      if current.None? {
        return;
      }
      var Instance(observed, desired, placement, generation) := current.value;
      if report.healthy {
        MarkHealthy(s, observed, desired, report.observedAt);
        return;
      }
      HandleUnhealthy(s, observed, placement, generation, report, outcomes, answers, reloadOk);
    }

    predicate IsInCooldown(s: ServiceId, at: Time)
      reads this
    {
      s in cooldownUntil && at < cooldownUntil[s]
    }

    /** The loop over the placements listed before any lock is taken.  Run to its end undisturbed, it hands every
        service placed on the node, and no other, to `_reschedule_from_unreachable_node`. */
    method HandleNodeUnreachable(nodeId: NodeId, at: Time, reality: Reality)
      requires ingress.store == store && store.Valid()
      modifies store`observed, store`pending, store`placement, store`restartCounter, store`serviceGeneration
      modifies store`recoveryHistory, store`events, agents, ingress`file, this`cooldownUntil
      ensures store.Valid() && cooldownUntil == old(cooldownUntil)
      ensures forall s :: Swept(settings, scheduler, old(store.Record(s)), store.Record(s), nodeId, at,
                                Listed(store.nodes), reality)
    {
      hide InMemoryStateStore.Record, InMemoryStateStore.Valid, Sorted, Listed, Swept;
      var placements := store.ListPlacements();
      ghost var ids := Sorted(store.placement.Keys);
      ghost var table := Listed(store.nodes);
      store.PlacementsListed();
      for i := 0 to |placements|
        invariant store.Valid() && cooldownUntil == old(cooldownUntil)
        invariant forall x ::
          SweptIf(x in ids[..i], settings, scheduler, old(store.Record(x)), store.Record(x), nodeId, at, table, reality)
      {
        SortedFresh(old(store.placement.Keys), i);
        assert SweptIf(false, settings, scheduler, old(store.Record(ids[i])), store.Record(ids[i]), nodeId, at, table,
                       reality);
        SweepOne(placements[i], nodeId, at, reality, i);
        assert ids[..i + 1] == ids[..i] + [ids[i]];
        assert SweptIf(true, settings, scheduler, old(store.Record(ids[i])), store.Record(ids[i]), nodeId, at, table,
                       reality);
      }
      assert ids[..|ids|] == ids;
      forall s ensures Swept(settings, scheduler, old(store.Record(s)), store.Record(s), nodeId, at, table, reality) {
        assert SweptIf(s in ids, settings, scheduler, old(store.Record(s)), store.Record(s), nodeId, at, table,
                       reality);
        if s !in ids {
          UnplacedNotSwept(settings, scheduler, store.Record(s), nodeId, at, table, reality);
        }
      }
    }

    method SweepOne(listed: Placement, nodeId: NodeId, at: Time, reality: Reality, i: nat)
      requires ingress.store == store && store.Valid() && store.Record(listed.serviceId).placement == Some(listed)
      modifies store`observed, store`pending, store`placement, store`restartCounter, store`serviceGeneration
      modifies store`recoveryHistory, store`events, agents, ingress`file, this`cooldownUntil
      ensures store.Valid() && cooldownUntil == old(cooldownUntil)
      ensures var s := listed.serviceId;
              Swept(settings, scheduler, old(store.Record(s)), store.Record(s), nodeId, at, Listed(store.nodes),
                    reality)
      ensures forall x :: x != listed.serviceId ==> store.Record(x) == old(store.Record(x))
    {
      hide InMemoryStateStore.Record, InMemoryStateStore.Valid, Sorted, Listed, FindNode, OnUnreachable, Evacuated;
      hide HistoryFollows, FileFollows;
      if listed.nodeId != nodeId {
        return;
      }
      agents.Begin();
      ghost var before := View(listed.serviceId);
      RescheduleFromUnreachableNode(listed, at, reality.outcomes(i), reality.answers(i), reality.reloadOk(i));
      EvacuationIgnoresMemory(settings, scheduler, before, at, Env(Listed(store.nodes), reality.outcomes(i)));
      assert store.Record(listed.serviceId) == Bare(View(listed.serviceId));
    }
  }

  /** Swept if its turn has come, else as it was. */
  ghost predicate SweptIf(handled: bool, cfg: Settings, pick: Pick, before: Service, after: Service, nodeId: NodeId,
                          at: Time,
                          table: seq<NodeState>, reality: Reality)
  {
    if handled then Swept(cfg, pick, before, after, nodeId, at, table, reality) else after == before
  }

  lemma UnplacedNotSwept(cfg: Settings, pick: Pick, st: Service, nodeId: NodeId, at: Time, table: seq<NodeState>,
                         reality: Reality)
    requires st.placement.None?
    ensures Swept(cfg, pick, st, st, nodeId, at, table, reality)
  {
  }

  /** The node-unreachable step was taken for the service exactly if it was placed on the node. */
  ghost predicate Swept(cfg: Settings, pick: Pick, before: Service, after: Service, nodeId: NodeId, at: Time,
                        table: seq<NodeState>, reality: Reality)
  {
    if OnNode(before, nodeId) then
      exists k: nat :: after == Evacuated(cfg, pick, before, at, Env(table, reality.outcomes(k)))
    else after == before
  }
}
