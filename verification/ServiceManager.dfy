// `ServiceManager` of controller/service_manager.py: deploy, stop, restart and the retry of pending deployments.

module ServiceManagement {
  import opened Models
  import opened Lifecycle
  import opened Agents
  import opened Ordering
  import opened StepFacts
  import opened StateStore
  import opened Ingress

  /** What `restart` returns to its caller. */
  datatype RestartResult =
    | Restarted(observed: ObservedState)
    | AlreadyKnown(observed: ObservedState)
    | PlacementNotFound
    | NodeNotFound
    | AgentFailed

  /** The result by what was stored before and after, and whether node and agent could be reached. */
  function ResultOfRestart(before: Service, after: Service, nodes: seq<NodeState>, restartOk: bool): RestartResult
  {
    if before.placement.None? then
      if before.observed.Some? then AlreadyKnown(before.observed.value) else PlacementNotFound
    else if FindNode(nodes, before.placement.value.nodeId).None? then NodeNotFound
    else if !restartOk || after.observed.None? then AgentFailed
    else Restarted(after.observed.value)
  }

  /** The calls of a stop: the agent of the placed node if that node is known, then the counter, then the ingress. */
  function StopCalls(placement: Option<Placement>, nodes: map<NodeId, NodeState>, ok: bool): seq<Effect>
  {
    (if placement.Some? && placement.value.nodeId in nodes then [AgentStop(placement.value.nodeId, ok)] else [])
    + [CounterReset, IngressSync]
  }

  class ServiceManager {
    const store: InMemoryStateStore
    const agents: AgentClient
    const ingress: IngressManager
    const scheduler: Pick

    constructor (store: InMemoryStateStore, agents: AgentClient, ingress: IngressManager, scheduler: Pick)
      ensures this.store == store && this.agents == agents && this.ingress == ingress && this.scheduler == scheduler
    {
      this.store, this.agents, this.ingress, this.scheduler := store, agents, ingress, scheduler;
    }

    /** The stored record of a service with the running handler's effects. */
    ghost function View(s: ServiceId): Service
      reads store, agents
    {
      store.Record(s).(effects := agents.effects)
    }

    /** The handler changed no other service, kept the store valid, and synced the file if its effects say so. */
    twostate predicate HandledOnly(s: ServiceId, answers: Answers)
      reads store, agents, ingress
    {
      && (old(store.Valid()) ==> store.Valid())
      && (forall x :: x != s ==> store.Record(x) == old(store.Record(x)))
      && ingress.file == if Syncs(agents.effects)
                         then Synced(ingress.settings, old(ingress.file), s,
                                     Decide(store.Record(s), Listed(store.nodes), answers))
                         else old(ingress.file)
    }

    method SyncIngress(s: ServiceId, answers: Answers, reloadOk: bool)
      requires ingress.store == store
      modifies agents, ingress`file, store`events
      ensures agents.effects == old(agents.effects) + [IngressSync]
      ensures (old(store.Valid()) ==> store.Valid()) && forall x :: store.Record(x) == old(store.Record(x))
      ensures ingress.file == Synced(ingress.settings, old(ingress.file), s,
                                     Decide(store.Record(s), Listed(store.nodes), answers))
    {
      agents.Did(IngressSync);
      ingress.SyncService(s, answers, reloadOk);
    }

    method LeaveUnplaced(s: ServiceId, status: Status, reason: PendingReason, now: Time, answers: Answers,
                         reloadOk: bool)
      returns (observed: ObservedState)
      requires ingress.store == store
      modifies store`observed, store`pending, store`events, agents, ingress`file
      ensures View(s) == Unplaced(old(View(s)), status, reason, now) && View(s).observed == Some(observed)
      ensures agents.effects == old(agents.effects) + [IngressSync]
      ensures (old(store.Valid()) ==> store.Valid()) && forall x :: x != s ==> store.Record(x) == old(store.Record(x))
      ensures ingress.file == Synced(ingress.settings, old(ingress.file), s,
                                     Decide(store.Record(s), Listed(store.nodes), answers))
    {
      hide InMemoryStateStore.Record, InMemoryStateStore.Valid, Decide, Synced, Listed, Sorted;
      observed := ObservedState(status, Unknown, None, None, now, 0, None);
      store.SetServiceObserved(s, observed);
      store.SetPendingDeployment(PendingDeployment(s, reason, now));
      SyncIngress(s, answers, reloadOk);
    }

    method RecordDeployment(s: ServiceId, target: NodeId, containerId: string, spec: ServiceSpec, now: Time,
                            answers: Answers, reloadOk: bool)
      returns (observed: ObservedState)
      requires ingress.store == store && spec.serviceId == s
      modifies store`placement, store`pending, store`desired, store`observed, store`restartCounter, store`events
      modifies agents, ingress`file
      ensures View(s) == DeployedOn(old(View(s)), target, containerId, spec, now) && View(s).observed == Some(observed)
      ensures agents.effects == old(agents.effects) + [CounterReset, IngressSync]
      ensures (old(store.Valid()) ==> store.Valid()) && forall x :: x != s ==> store.Record(x) == old(store.Record(x))
      ensures ingress.file == Synced(ingress.settings, old(ingress.file), s,
                                     Decide(store.Record(s), Listed(store.nodes), answers))
    {
      hide InMemoryStateStore.Record, InMemoryStateStore.Valid, Decide, Synced, Listed, Sorted;
      store.SetPlacement(Placement(s, target, now));
      store.PopPendingDeployment(s);
      store.SetServiceDesired(DesiredState(spec, Running, now, now));
      observed := ObservedState(Running, Unknown, Some(containerId), Some(target), now, 0, None);
      store.SetServiceObserved(s, observed);
      store.ResetRestartCounter(s);
      agents.Did(CounterReset);
      SyncIngress(s, answers, reloadOk);
    }

    /** The scheduler names a node that the list it was given does not hold: RuntimeError. */
    predicate UnknownNodeSelected(spec: ServiceSpec, nodes: seq<NodeState>)
    {
      var choice := scheduler(spec, nodes);
      choice.Some? && FindNode(nodes, choice.value).None?
    }

    /** Returns the stored observation; none where the source raises. */
    method Deploy(spec: ServiceSpec, now: Time, outcomes: Outcomes, answers: Answers, reloadOk: bool)
      returns (r: Option<ObservedState>)
      requires ingress.store == store
      modifies store`placement, store`pending, store`desired, store`observed, store`restartCounter, store`events
      modifies agents, ingress`file
      ensures View(spec.serviceId) ==
        Lifecycle.Deploy(scheduler, old(store.Record(spec.serviceId)), spec, now, Env(Listed(store.nodes), outcomes))
      ensures HandledOnly(spec.serviceId, answers)
      ensures var ran := old(store.Record(spec.serviceId)).IsObserved(Running);
              r.None? <==> !ran && UnknownNodeSelected(spec, Listed(store.nodes))
      ensures r.Some? ==> r == View(spec.serviceId).observed
    {
      hide InMemoryStateStore.Record, InMemoryStateStore.Valid, Decide, Synced, Listed, Sorted, FindNode, Unplaced;
      hide DeployTo;
      agents.Begin();
      var s := spec.serviceId;
      var existing := store.GetServiceObserved(s);
      if existing.Some? && existing.value.status == Running {
        return existing;
      }
      store.SetServiceDesired(DesiredState(spec, Deploying, now, now));
      var nodes := store.ListNodes();
      var choice := scheduler(spec, nodes);
      if choice.None? {
        var observed := LeaveUnplaced(s, PlacementFailed, NoEligibleNode, now, answers, reloadOk);
        assert agents.effects == [IngressSync];
        return Some(observed);
      }
      var selected := FindNode(nodes, choice.value);
      if selected.None? {
        return None;
      }
      var observed := DeployOn(s, selected.value, spec, now, outcomes, answers, reloadOk);
      r := Some(observed);
    }

    method DeployOn(s: ServiceId, node: NodeState, spec: ServiceSpec, now: Time, outcomes: Outcomes, answers: Answers,
                    reloadOk: bool)
      returns (observed: ObservedState)
      requires ingress.store == store && spec.serviceId == s && agents.effects == []
      modifies store`placement, store`pending, store`desired, store`observed, store`restartCounter, store`events
      modifies agents, ingress`file
      ensures View(s) == DeployTo(old(View(s)), node.nodeId, spec, now, Env(Listed(store.nodes), outcomes))
      ensures View(s).observed == Some(observed)
      ensures HandledOnly(s, answers)
    {
      hide InMemoryStateStore.Record, InMemoryStateStore.Valid, Decide, Synced, Listed, Sorted, Unplaced, DeployedOn;
      var reply := agents.Deploy(node, spec, outcomes.deployReply);
      if reply.Refused? {
        observed := LeaveUnplaced(s, Pending, AgentRefused(reply.error), now, answers, reloadOk);
        assert agents.effects == [AgentDeploy(node.nodeId, false), IngressSync];
      } else {
        observed := RecordDeployment(s, node.nodeId, reply.containerId, spec, now, answers, reloadOk);
        assert agents.effects == [AgentDeploy(node.nodeId, true), CounterReset, IngressSync];
      }
    }

    lemma StopCallsMeaning(st: Service, now: Time, outcomes: Outcomes)
      requires store.Valid() && st.effects == []
      ensures Lifecycle.Stop(st, now, Env(Listed(store.nodes), outcomes)).effects ==
              StopCalls(st.placement, store.nodes, outcomes.stopOk)
    {
      hide Listed, FindNode;
      ListedMembers(store.nodes);
    }

    method Stop(s: ServiceId, now: Time, outcomes: Outcomes, answers: Answers, reloadOk: bool)
        returns (observed: ObservedState)
      requires ingress.store == store && store.Valid()
      modifies store`placement, store`pending, store`desired, store`observed, store`restartCounter, store`events
      modifies agents, ingress`file
      ensures View(s) == Lifecycle.Stop(old(store.Record(s)), now, Env(Listed(store.nodes), outcomes))
      ensures View(s).observed == Some(observed)
      ensures var p := old(store.Record(s)).placement;
              agents.effects == StopCalls(p, store.nodes, outcomes.stopOk)
      ensures HandledOnly(s, answers)
    {
      hide InMemoryStateStore.Record, InMemoryStateStore.Valid, Decide, Synced, Listed, Sorted, FindNode, StopCalls;
      StopCallsMeaning(store.Record(s), now, outcomes);
      agents.Begin();
      var placement := store.GetPlacement(s);
      if placement.Some? {
        var nodes := store.ListNodes();
        var node := FindNode(nodes, placement.value.nodeId);
        if node.Some? {
          var stopped := agents.Stop(node.value, outcomes.stopOk);
        }
      }
      observed := RecordStop(s, now);
      SyncIngress(s, answers, reloadOk);
      assert agents.effects[|agents.effects| - 1] == IngressSync;
    }

    method RecordStop(s: ServiceId, now: Time) returns (observed: ObservedState)
      requires store.Valid()
      modifies store`placement, store`pending, store`desired, store`observed, store`restartCounter, agents
      ensures View(s) == StoppedRecord(old(View(s)), now) && View(s).observed == Some(observed)
      ensures agents.effects == old(agents.effects) + [CounterReset]
      ensures store.Valid() && forall x :: x != s ==> store.Record(x) == old(store.Record(x))
    {
      hide InMemoryStateStore.Record, InMemoryStateStore.Valid, Listed, Sorted;
      observed := ObservedState(Stopped, Unknown, None, None, now, 0, None);
      store.SetServiceObserved(s, observed);
      store.ClearPlacement(s);
      store.PopPendingDeployment(s);
      store.ResetRestartCounter(s);
      agents.Did(CounterReset);
      var desired := store.GetServiceDesired(s);
      if desired.Some? {
        store.SetServiceDesired(desired.value.(status := Stopped, updatedAt := now));
      }
    }

    method Restart(s: ServiceId, now: Time, outcomes: Outcomes, answers: Answers, reloadOk: bool)
        returns (result: RestartResult)
      requires ingress.store == store
      modifies store`observed, store`events, agents, ingress`file
      ensures View(s) == Lifecycle.Restart(old(store.Record(s)), now, Env(Listed(store.nodes), outcomes))
      ensures HandledOnly(s, answers)
      ensures result.Restarted? <==> Syncs(agents.effects)
      ensures result == ResultOfRestart(old(store.Record(s)), View(s), Listed(store.nodes), outcomes.restartOk)
    {
      hide InMemoryStateStore.Record, InMemoryStateStore.Valid, Decide, Synced, Listed, Sorted, FindNode;
      agents.Begin();
      var placement := store.GetPlacement(s);
      var observed := store.GetServiceObserved(s);
      if placement.None? {
        return if observed.Some? then AlreadyKnown(observed.value) else PlacementNotFound;
      }
      var nodes := store.ListNodes();
      var node := FindNode(nodes, placement.value.nodeId);
      if node.None? {
        return NodeNotFound;
      }
      var ok := agents.Restart(node.value, outcomes.restartOk, false);
      if !ok {
        assert agents.effects == [AgentRestart(node.value.nodeId, false, false)];
        return AgentFailed;
      }
      var next := if observed.None? then ObservedState(Running, Unknown, None, Some(node.value.nodeId), now, 0, None)
                  else observed.value.(status := Running, health := Unknown);
      store.SetServiceObserved(s, next);
      SyncIngress(s, answers, reloadOk);
      assert agents.effects == [AgentRestart(node.value.nodeId, true, false), IngressSync];
      result := Restarted(next);
    }

    /** None without a desired state, and where the deployment raises. */
    method RetryPendingDeployment(s: ServiceId, now: Time, outcomes: Outcomes, answers: Answers, reloadOk: bool)
      returns (r: Option<ObservedState>)
      requires ingress.store == store && store.Valid()
      modifies store`placement, store`pending, store`desired, store`observed, store`restartCounter, store`events
      modifies agents, ingress`file
      ensures View(s) == RetryPending(scheduler, old(store.Record(s)), now, Env(Listed(store.nodes), outcomes))
      ensures HandledOnly(s, answers)
      ensures var before := old(store.Record(s));
              r.None? <==> before.desired.None? ||
                           (&& !before.IsObserved(Running)
                            && UnknownNodeSelected(before.desired.value.service, Listed(store.nodes)))
      ensures r.Some? ==> r == View(s).observed
    {
      hide InMemoryStateStore.Record, InMemoryStateStore.Valid, Decide, Synced, Listed, Sorted, Lifecycle.Deploy;
      var desired := store.GetServiceDesired(s);
      if desired.None? {
        agents.Begin();
        store.PopPendingDeployment(s);
        return None;
      }
      r := Deploy(desired.value.service, now, outcomes, answers, reloadOk);
    }
  }
}
