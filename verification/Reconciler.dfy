// `Reconciler.run_once` of controller/reconciler.py: dead nodes first, then the pending deployments.

module Reconciliation {
  import opened Models
  import opened Lifecycle
  import opened SystemInvariant
  import opened StepFacts
  import opened Agents
  import opened Ordering
  import opened StateStore
  import Scheduler
  import SelfHealing
  import ServiceManagement

  /** A healthy node whose heartbeat is older than timeout plus interval. */
  predicate Dead(cfg: Settings, node: NodeState, now: Time)
  {
    node.status == Healthy && node.lastHeartbeatAt < now - (cfg.heartbeatTimeout + cfg.reconciliationInterval)
  }

  /** The node table after the dead nodes among `ids` were marked. */
  function Marked(cfg: Settings, nodes: map<NodeId, NodeState>, ids: seq<NodeId>, now: Time): map<NodeId, NodeState>
  {
    map n | n in nodes :: if n in ids && Dead(cfg, nodes[n], now) then nodes[n].(status := Unavailable) else nodes[n]
  }

  /** The service does not run there, and its work is not lost. */
  predicate Parked(st: Service) { !st.IsObserved(Running) && st.pending.Some? }

  /** What is true of every service against the original table: no service runs on a node that this pass found dead. */
  ghost predicate OffDeadNodes(cfg: Settings, st: Service, nodes: map<NodeId, NodeState>, ids: seq<NodeId>, now: Time)
  {
    forall n :: n in nodes && n in ids && Dead(cfg, nodes[n], now) && OnNode(st, n) ==> Parked(st)
  }

  /** The node-unreachable step for a sound, placed service either parks it where it is or moves it to a healthy
      node of the table. */
  lemma EvacuationPlaces(cfg: Settings, st: Service, at: Time, env: Environment)
    requires Sound(st) && st.placement.Some?
    ensures var out := Evacuated(cfg, LEAST_LOAD, st, at, env);
            && Sound(out) && out.id == st.id
            && ((out.placement == st.placement && Parked(out)) || OnHealthy(out, env.nodes))
  {
    hide Sound, OnUnreachable, WithoutNode;
    var listed := st.placement.value;
    PlacedWantsToRun(st);
    UnreachableKeeps(cfg, LEAST_LOAD, st, listed, at, env);
    BareKeepsSound(OnUnreachable(cfg, LEAST_LOAD, st, listed, at, env));
    UnreachablePlaces(cfg, LEAST_LOAD, st, listed, at, env);
    var spec := st.desired.value.service;
    var others := WithoutNode(env.nodes, listed.nodeId);
    if Scheduler.Choose(spec, others).Some? {
      Scheduler.ChosenNodeIsPresent(spec, others);
      var n :| n in others && n.nodeId == Scheduler.Choose(spec, others).value && Scheduler.Eligible(spec, n);
      assert n in env.nodes;
    }
  }

  lemma PlacedWantsToRun(st: Service)
    requires Sound(st) && st.placement.Some?
    ensures st.WantsToRun()
  {
  }

  lemma BareKeepsSound(st: Service)
    requires Sound(st)
    ensures Sound(Bare(st))
  {
  }

  lemma UnreachablePlaces(cfg: Settings, pick: Pick, st: Service, listed: Placement, at: Time, env: Environment)
    requires st.desired.Some? && st.placement == Some(listed)
    ensures var out := OnUnreachable(cfg, pick, st, listed, at, env);
            var choice := pick(st.desired.value.service, WithoutNode(env.nodes, listed.nodeId));
            || (Parked(out) && out.placement == st.placement)
            || (choice.Some? && OnNode(out, choice.value))
  {
    hide MovedTo, GiveUp, FindNode, WithoutNode;
    var choice := pick(st.desired.value.service, WithoutNode(env.nodes, listed.nodeId));
    GiveUpFacts(st, UnreachableTargetGone, Pending, listed.nodeId, at);
    if choice.Some? && FindNode(env.nodes, choice.value).Some? {
      var target := FindNode(env.nodes, choice.value).value.nodeId;
      GiveUpFacts(st.Did(AgentDeploy(target, false)), UnreachableDeployFailed, Failed, listed.nodeId, at);
      if env.deployReply.Accepted? {
        MoveFacts(cfg, st.Did(AgentDeploy(target, true)), target, env.deployReply.containerId, at);
      }
    }
  }

  ghost predicate OnHealthy(st: Service, nodes: seq<NodeState>)
  {
    st.placement.Some? && exists n :: n in nodes && n.nodeId == st.placement.value.nodeId && n.status == Healthy
  }

  /** A pending retry of a sound service leaves it alone, parks it where it is, or places it on a healthy node. */
  lemma RetryPlaces(st: Service, now: Time, env: Environment)
    requires Sound(st)
    ensures var out := RetryPending(LEAST_LOAD, st, now, env);
            && Sound(out) && out.id == st.id
            && ((out.placement == st.placement && (Parked(st) ==> Parked(out))) || OnHealthy(out, env.nodes))
  {
    if st.desired.Some? {
      var spec := st.desired.value.service;
      DeployKeeps(LEAST_LOAD, st, spec, now, env);
      if Scheduler.Choose(spec, env.nodes).Some? {
        Scheduler.ChosenNodeIsPresent(spec, env.nodes);
      }
    }
    hide Sound;
  }

  lemma HealthyIsNotDead(cfg: Settings, st: Service, nodes: map<NodeId, NodeState>, ids: seq<NodeId>, now: Time)
    requires forall n :: n in nodes ==> nodes[n].nodeId == n
    requires OnHealthy(st, Listed(Marked(cfg, nodes, ids, now)))
    ensures OffDeadNodes(cfg, st, nodes, ids, now)
  {
    var table := Marked(cfg, nodes, ids, now);
    ListedMembers(table);
    var n :| n in Listed(table) && n.nodeId == st.placement.value.nodeId && n.status == Healthy;
    var k :| k in table && table[k] == n;
    assert nodes[k].nodeId == k;
  }

  /** Handling one more dead node: services on it leave or park, all others stay off the dead nodes. */
  lemma SweepStep(cfg: Settings, before: Service, after: Service, nodes: map<NodeId, NodeState>, ids: seq<NodeId>,
                  i: nat,
                  now: Time, reality: Reality)
    requires i < |ids| && Sound(before) && OffDeadNodes(cfg, before, nodes, ids[..i], now)
    requires forall n :: n in nodes ==> nodes[n].nodeId == n
    requires SelfHealing.Swept(cfg, LEAST_LOAD, before, after, ids[i], now,
                               Listed(Marked(cfg, nodes, ids[..i + 1], now)), reality)
    ensures Sound(after) && OffDeadNodes(cfg, after, nodes, ids[..i + 1], now)
  {
    hide Sound, Listed, Marked;
    var table := Listed(Marked(cfg, nodes, ids[..i + 1], now));
    if OnNode(before, ids[i]) {
      var k: nat :| after == Evacuated(cfg, LEAST_LOAD, before, now, Env(table, reality.outcomes(k)));
      EvacuationPlaces(cfg, before, now, Env(table, reality.outcomes(k)));
      if !Parked(after) {
        HealthyIsNotDead(cfg, after, nodes, ids[..i + 1], now);
      }
    } else {
      assert forall n :: n in ids[..i + 1] && n != ids[i] ==> n in ids[..i];
    }
  }

  /** A node that is not dead changes nothing about which services are off the dead nodes. */
  lemma LiveStep(cfg: Settings, st: Service, nodes: map<NodeId, NodeState>, ids: seq<NodeId>, i: nat, now: Time)
    requires i < |ids| && OffDeadNodes(cfg, st, nodes, ids[..i], now)
    requires ids[i] in nodes && !Dead(cfg, nodes[ids[i]], now)
    ensures OffDeadNodes(cfg, st, nodes, ids[..i + 1], now)
  {
    assert forall n :: n in ids[..i + 1] && n != ids[i] ==> n in ids[..i];
  }

  lemma MarkedStep(cfg: Settings, nodes: map<NodeId, NodeState>, ids: seq<NodeId>, i: nat, now: Time)
    requires i < |ids| && ids[i] in nodes && ids[i] !in ids[..i]
    ensures ids[i] in Marked(cfg, nodes, ids[..i], now)
    ensures Marked(cfg, nodes, ids[..i], now)[ids[i]] == nodes[ids[i]]
    ensures Marked(cfg, nodes, ids[..i + 1], now) ==
      if Dead(cfg, nodes[ids[i]], now)
      then Marked(cfg, nodes, ids[..i], now)[ids[i] := nodes[ids[i]].(status := Unavailable)]
      else Marked(cfg, nodes, ids[..i], now)
  {
    assert ids[..i + 1] == ids[..i] + [ids[i]];
  }

  lemma RetryStepIsSafe(cfg: Settings, before: Service, env: Environment, now: Time, nodes: map<NodeId, NodeState>,
                        ids: seq<NodeId>)
    requires Sound(before) && OffDeadNodes(cfg, before, nodes, ids, now)
    requires forall n :: n in nodes ==> nodes[n].nodeId == n
    requires env.nodes == Listed(Marked(cfg, nodes, ids, now))
    ensures var after := RetryPending(LEAST_LOAD, before, now, env);
            Sound(after) && OffDeadNodes(cfg, after, nodes, ids, now)
  {
    hide Sound, RetryPending, Listed, Marked;
    RetryPlaces(before, now, env);
    var after := RetryPending(LEAST_LOAD, before, now, env);
    if OnHealthy(after, env.nodes) {
      HealthyIsNotDead(cfg, after, nodes, ids, now);
    }
  }

  // What the pass does to one service: the sweeps of the dead nodes in turn, then one retry if it is listed as pending.

  /** The record after the dead nodes among the first `i` were handled in turn, each with the table of its moment. */
  ghost predicate SweptAlong(cfg: Settings, before: Service, after: Service, nodes: map<NodeId, NodeState>,
                             ids: seq<NodeId>, i: nat, now: Time, sweeps: nat -> Reality)
    requires i <= |ids|
    decreases i
  {
    if i == 0 then after == before
    else
      var k := i - 1;
      exists mid ::
        && SweptAlong(cfg, before, mid, nodes, ids, k, now, sweeps)
        && SweptIfDead(cfg, mid, after, nodes, ids, k, now, sweeps(k))
  }

  ghost predicate SweptIfDead(cfg: Settings, before: Service, after: Service, nodes: map<NodeId, NodeState>,
                              ids: seq<NodeId>, i: nat, now: Time, reality: Reality)
    requires i < |ids|
  {
    if ids[i] in nodes && Dead(cfg, nodes[ids[i]], now)
    then SelfHealing.Swept(cfg, LEAST_LOAD, before, after, ids[i], now, Listed(Marked(cfg, nodes, ids[..i + 1], now)),
                           reality)
    else after == before
  }

  /** No node that this pass finds dead is the service's. */
  ghost predicate OffTheDead(cfg: Settings, st: Service, nodes: map<NodeId, NodeState>, now: Time)
  {
    forall n :: n in nodes && Dead(cfg, nodes[n], now) ==> !OnNode(st, n)
  }

  lemma {:induction false} SweptElsewhere(cfg: Settings, before: Service, after: Service,
                                          nodes: map<NodeId, NodeState>, ids: seq<NodeId>, i: nat, now: Time,
                                          sweeps: nat -> Reality)
    requires i <= |ids| && SweptAlong(cfg, before, after, nodes, ids, i, now, sweeps)
    requires OffTheDead(cfg, before, nodes, now)
    ensures after == before
    decreases i
  {
    hide Listed, Marked, Evacuated, OnNode;
    if i > 0 {
      var k := i - 1;
      var mid :| SweptAlong(cfg, before, mid, nodes, ids, k, now, sweeps)
                 && SweptIfDead(cfg, mid, after, nodes, ids, k, now, sweeps(k));
      SweptElsewhere(cfg, before, mid, nodes, ids, k, now, sweeps);
    }
  }

  /** The stored record after the retry of a pending deployment. */
  function Retried(st: Service, now: Time, env: Environment): Service
  {
    Bare(RetryPending(LEAST_LOAD, st, now, env))
  }

  /** A retried service that is meant to run ends up running exactly if it already was, or some node is eligible and
      the agent of the chosen one accepts. */
  lemma RetryRuns(st: Service, now: Time, nodes: map<NodeId, NodeState>, outcomes: Outcomes)
    requires st.desired.Some?
    ensures Retried(st, now, Env(Listed(nodes), outcomes)).IsObserved(Running) <==>
              st.IsObserved(Running)
              || (SomeEligible(st.desired.value.service, nodes) && outcomes.deployReply.Accepted?)
  {
    hide Scheduler.Choose, Scheduler.Eligible, Listed;
    var spec, table := st.desired.value.service, Listed(nodes);
    ListedMembers(nodes);
    Scheduler.ChoiceIsLexicographicMinimum(spec, table);
    if Scheduler.Choose(spec, table).Some? {
      Scheduler.ChosenNodeIsPresent(spec, table);
    }
  }

  ghost predicate SomeEligible(spec: ServiceSpec, nodes: map<NodeId, NodeState>)
  {
    exists n :: n in nodes && Scheduler.Eligible(spec, nodes[n])
  }

  class Reconciler {
    const settings: Settings
    const store: InMemoryStateStore
    const services: ServiceManagement.ServiceManager
    const healing: SelfHealing.SelfHealingManager

    constructor (settings: Settings, store: InMemoryStateStore, services: ServiceManagement.ServiceManager,
                 healing: SelfHealing.SelfHealingManager)
      ensures this.settings == settings && this.store == store && this.services == services && this.healing == healing
    {
      this.settings, this.store, this.services, this.healing := settings, store, services, healing;
    }

    /** The parts are wired as controller/main.py wires them, with the least-load scheduler. */
    ghost predicate Wired()
    {
      && healing.store == store && healing.ingress.store == store && healing.settings == settings
      && services.store == store && services.ingress.store == store
      && healing.scheduler == LEAST_LOAD && services.scheduler == LEAST_LOAD
    }

    ghost predicate AllSound()
      reads store
    {
      store.Valid() && forall s :: Sound(store.Record(s))
    }

    /** An undisturbed pass marks exactly the dead nodes, sweeps each of them, and then retries each service that has a
        pending record exactly once.  `swept` is every service's record between the two loops; `listed` are the services
        that are retried.  When the pass ends, no running service is placed on a node marked in this pass, every service
        still placed there has a pending record, and the invariant holds for all. */
    method RunOnce(now: Time, sweeps: nat -> Reality, retries: Reality)
      returns (ghost swept: imap<ServiceId, Service>, ghost listed: seq<ServiceId>)
      requires Wired() && AllSound()
      modifies store, healing`cooldownUntil, healing.agents, healing.ingress`file, services.agents,
      services.ingress`file
      ensures AllSound()
      ensures store.nodes.Keys == old(store.nodes).Keys
      ensures forall n :: n in store.nodes ==>
        var was := old(store.nodes)[n];
        store.nodes[n] == if was.status == Healthy
                             && was.lastHeartbeatAt + settings.heartbeatTimeout + settings.reconciliationInterval < now
                          then was.(status := Unavailable) else was
      ensures forall s, n ::
        n in store.nodes && Dead(settings, old(store.nodes)[n], now) && OnNode(store.Record(s), n) ==>
        !store.Record(s).IsObserved(Running) && store.Record(s).pending.Some?
      ensures forall s :: s in swept
      ensures var ids := Sorted(old(store.nodes).Keys); forall s ::
        SweptAlong(settings, old(store.Record(s)), swept[s], old(store.nodes), ids, |ids|, now, sweeps)
      ensures forall s :: OffTheDead(settings, old(store.Record(s)), old(store.nodes), now) ==>
        swept[s] == old(store.Record(s))
      ensures Ascending(listed) && forall s :: s in listed <==> swept[s].pending.Some?
      ensures forall s :: s !in listed ==> store.Record(s) == swept[s]
      ensures forall i :: 0 <= i < |listed| ==>
        store.Record(listed[i]) == Retried(swept[listed[i]], now, Env(Listed(store.nodes), retries.outcomes(i)))
      ensures forall i :: 0 <= i < |listed| && swept[listed[i]].desired.Some? ==>
        (store.Record(listed[i]).IsObserved(Running) <==>
           swept[listed[i]].IsObserved(Running)
           || (SomeEligible(swept[listed[i]].desired.value.service, store.nodes)
               && retries.outcomes(i).deployReply.Accepted?))
    {
      hide Sound, Sorted, Listed, InMemoryStateStore.Record, SweptAlong, Retried, SomeEligible, OffTheDead;
      ghost var nodes := store.nodes;
      ghost var ids := Sorted(nodes.Keys);
      MarkDeadNodes(now, sweeps);
      swept := imap s: ServiceId | true :: store.Record(s);
      forall s | OffTheDead(settings, old(store.Record(s)), nodes, now) ensures swept[s] == old(store.Record(s)) {
        SweptElsewhere(settings, old(store.Record(s)), swept[s], nodes, ids, |ids|, now, sweeps);
      }
      listed := RetryPendingDeployments(now, retries, nodes, ids);
      forall i | 0 <= i < |listed| && swept[listed[i]].desired.Some?
        ensures Retried(swept[listed[i]], now, Env(Listed(store.nodes), retries.outcomes(i))).IsObserved(Running) <==>
           swept[listed[i]].IsObserved(Running)
           || (SomeEligible(swept[listed[i]].desired.value.service, store.nodes)
               && retries.outcomes(i).deployReply.Accepted?)
      {
        RetryRuns(swept[listed[i]], now, store.nodes, retries.outcomes(i));
      }
    }

    method MarkDeadNodes(now: Time, sweeps: nat -> Reality)
      requires Wired() && AllSound()
      modifies store, healing`cooldownUntil, healing.agents, healing.ingress`file
      ensures AllSound()
      ensures var nodes, ids := old(store.nodes), Sorted(old(store.nodes).Keys);
              && store.nodes == Marked(settings, nodes, ids, now)
              && (forall s :: OffDeadNodes(settings, store.Record(s), nodes, ids, now))
              && forall s :: SweptAlong(settings, old(store.Record(s)), store.Record(s), nodes, ids, |ids|, now, sweeps)
    {
      hide Sound, Sorted, Listed, Marked, InMemoryStateStore.Record, SelfHealing.Swept;
      ghost var nodes := store.nodes;
      ghost var ids := Sorted(nodes.Keys);
      var listed := store.ListNodes();
      ListedAt(nodes);
      assert store.nodes == Marked(settings, nodes, ids[..0], now) by { NothingMarked(settings, nodes, ids, now); }
      for i := 0 to |listed|
        invariant AllSound()
        invariant store.nodes == Marked(settings, nodes, ids[..i], now)
        invariant forall s :: OffDeadNodes(settings, store.Record(s), nodes, ids[..i], now)
        invariant forall s :: SweptAlong(settings, old(store.Record(s)), store.Record(s), nodes, ids, i, now, sweeps)
      {
        var node := listed[i];
        SortedFresh(nodes.Keys, i);
        MarkedStep(settings, nodes, ids, i, now);
        if node.status != Healthy
            || node.lastHeartbeatAt >= now - (settings.heartbeatTimeout + settings.reconciliationInterval) {
          forall s ensures OffDeadNodes(settings, store.Record(s), nodes, ids[..i + 1], now) {
            LiveStep(settings, store.Record(s), nodes, ids, i, now);
          }
          forall s ensures
            SweptAlong(settings, old(store.Record(s)), store.Record(s), nodes, ids, i + 1, now, sweeps) {
            SweptFurther(settings, old(store.Record(s)), store.Record(s), store.Record(s), nodes, ids, i, now, sweeps);
          }
          continue;
        }
        label L:
        SweepNode(node, now, sweeps(i), nodes, ids, i);
        forall s ensures
          SweptAlong(settings, old(store.Record(s)), store.Record(s), nodes, ids, i + 1, now, sweeps) {
          SweptFurther(settings, old(store.Record(s)), old@L(store.Record(s)), store.Record(s), nodes, ids, i, now,
                       sweeps);
        }
      }
      assert ids[..|ids|] == ids;
    }

    method SweepNode(node: NodeState, now: Time, reality: Reality,
                     ghost nodes: map<NodeId, NodeState>, ghost ids: seq<NodeId>, ghost i: nat)
      requires Wired() && AllSound()
      requires i < |ids| && ids[i] in nodes && nodes[ids[i]] == node && node.nodeId == ids[i]
        && Dead(settings, node, now)
      requires forall n :: n in nodes ==> nodes[n].nodeId == n
      requires ids[i] !in ids[..i] && store.nodes == Marked(settings, nodes, ids[..i], now)
      requires forall s :: OffDeadNodes(settings, store.Record(s), nodes, ids[..i], now)
      modifies store, healing`cooldownUntil, healing.agents, healing.ingress`file
      ensures AllSound()
      ensures store.nodes == Marked(settings, nodes, ids[..i + 1], now)
      ensures forall s :: OffDeadNodes(settings, store.Record(s), nodes, ids[..i + 1], now)
      ensures forall s :: SweptIfDead(settings, old(store.Record(s)), store.Record(s), nodes, ids, i, now, reality)
    {
      hide Sound, Listed, Marked, InMemoryStateStore.Record, SelfHealing.Swept, OffDeadNodes;
      MarkedStep(settings, nodes, ids, i, now);
      store.MarkNodeUnavailable(node.nodeId);
      label L:
      healing.HandleNodeUnreachable(node.nodeId, now, reality);
      forall s ensures Sound(store.Record(s)) && OffDeadNodes(settings, store.Record(s), nodes, ids[..i + 1], now) {
        SweepStep(settings, old@L(store.Record(s)), store.Record(s), nodes, ids, i, now, reality);
      }
    }

    method RetryPendingDeployments(now: Time, reality: Reality, ghost nodes: map<NodeId, NodeState>,
                                   ghost ids: seq<NodeId>)
      returns (ghost listed: seq<ServiceId>)
      requires Wired() && AllSound()
      requires forall n :: n in nodes ==> nodes[n].nodeId == n
      requires store.nodes == Marked(settings, nodes, ids, now)
      requires forall s :: OffDeadNodes(settings, store.Record(s), nodes, ids, now)
      modifies store`placement, store`pending, store`desired, store`observed, store`restartCounter, store`events
      modifies services.agents, services.ingress`file
      ensures AllSound()
      ensures forall s :: OffDeadNodes(settings, store.Record(s), nodes, ids, now)
      ensures Ascending(listed) && forall s :: s in listed <==> old(store.Record(s)).pending.Some?
      ensures forall s :: s !in listed ==> store.Record(s) == old(store.Record(s))
      ensures forall i :: 0 <= i < |listed| ==>
        store.Record(listed[i]) ==
          Retried(old(store.Record(listed[i])), now, Env(Listed(store.nodes), reality.outcomes(i)))
    {
      hide Sound, Sorted, Listed, Marked, InMemoryStateStore.Record, InMemoryStateStore.Valid, OffDeadNodes, Retried;
      var pending := store.ListPendingDeployments();
      listed := Sorted(store.pending.Keys);
      store.PendingListed();
      for i := 0 to |pending|
        invariant AllSound()
        invariant forall s :: OffDeadNodes(settings, store.Record(s), nodes, ids, now)
        invariant forall s :: s !in listed ==> store.Record(s) == old(store.Record(s))
        invariant forall j :: i <= j < |listed| ==> store.Record(listed[j]) == old(store.Record(listed[j]))
        invariant forall j :: 0 <= j < i ==>
          store.Record(listed[j]) ==
            Retried(old(store.Record(listed[j])), now, Env(Listed(store.nodes), reality.outcomes(j)))
      {
        forall j | 0 <= j < |listed| && j != i ensures listed[j] != listed[i] {
          SortedDistinct(old(store.pending.Keys), if j < i then j else i, if j < i then i else j);
        }
        RetryOne(pending[i].serviceId, now, reality, i, nodes, ids);
      }
    }

    method RetryOne(s: ServiceId, now: Time, reality: Reality, i: nat, ghost nodes: map<NodeId, NodeState>,
                    ghost ids: seq<NodeId>)
      requires Wired() && AllSound()
      requires forall n :: n in nodes ==> nodes[n].nodeId == n
      requires store.nodes == Marked(settings, nodes, ids, now)
      requires forall s :: OffDeadNodes(settings, store.Record(s), nodes, ids, now)
      modifies store`placement, store`pending, store`desired, store`observed, store`restartCounter, store`events
      modifies services.agents, services.ingress`file
      ensures AllSound()
      ensures forall s :: OffDeadNodes(settings, store.Record(s), nodes, ids, now)
      ensures store.Record(s) == Retried(old(store.Record(s)), now, Env(Listed(store.nodes), reality.outcomes(i)))
      ensures forall x :: x != s ==> store.Record(x) == old(store.Record(x))
    {
      hide Sound, Sorted, Listed, Marked, InMemoryStateStore.Record, InMemoryStateStore.Valid, OffDeadNodes;
      hide RetryPending;
      ghost var before := store.Record(s);
      var _ := services.RetryPendingDeployment(s, now, reality.outcomes(i), reality.answers(i), reality.reloadOk(i));
      RetryStepIsSafe(settings, before, Env(Listed(store.nodes), reality.outcomes(i)), now, nodes, ids);
      EffectsDoNotMatter(settings, services.View(s), nodes, ids, now);
      assert store.Record(s) == Bare(services.View(s));
    }
  }

  lemma SweptFurther(cfg: Settings, before: Service, mid: Service, after: Service, nodes: map<NodeId, NodeState>,
                     ids: seq<NodeId>, i: nat, now: Time, sweeps: nat -> Reality)
    requires i < |ids| && SweptAlong(cfg, before, mid, nodes, ids, i, now, sweeps)
    requires SweptIfDead(cfg, mid, after, nodes, ids, i, now, sweeps(i))
    ensures SweptAlong(cfg, before, after, nodes, ids, i + 1, now, sweeps)
  {
  }

  lemma NothingMarked(cfg: Settings, nodes: map<NodeId, NodeState>, ids: seq<NodeId>, now: Time)
    ensures Marked(cfg, nodes, ids[..0], now) == nodes
  {
  }

  lemma EffectsDoNotMatter(cfg: Settings, st: Service, nodes: map<NodeId, NodeState>, ids: seq<NodeId>, now: Time)
    requires Sound(st) && OffDeadNodes(cfg, st, nodes, ids, now)
    ensures Sound(st.(effects := [])) && OffDeadNodes(cfg, st.(effects := []), nodes, ids, now)
  {
  }
}
