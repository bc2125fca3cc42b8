// What each handler leaves behind, field by field and effect by effect, in terms of the records, reports and node
// tables alone: when it acts, whom it asks, in which order, and what it records.

module HandlerOutcomes {
  import opened Models
  import opened Lifecycle
  import opened StepFacts

  /** The report is about the instance that the store believes to run on that node. */
  predicate Concerns(st: Service, nodeId: NodeId, tag: Option<int>)
  {
    && st.observed.Some? && st.desired.Some? && st.desired.value.status != Stopped
    && st.placement.Some? && st.placement.value.nodeId == nodeId
    && (tag.None? || tag.value == st.generation)
  }

  /** The startup grace of the observed instance is over. */
  predicate Settled(st: Service, at: Time)
  {
    st.observed.Some? && (st.observed.value.startupGraceUntil.None? || st.observed.value.startupGraceUntil.value <= at)
  }

  /** No cooldown is running. */
  predicate Cooled(st: Service, at: Time) { st.cooldownUntil.None? || st.cooldownUntil.value <= at }

  predicate Knows(nodes: seq<NodeState>, nodeId: NodeId) { exists n :: n in nodes && n.nodeId == nodeId }

  lemma KnowsMeans(nodes: seq<NodeState>, nodeId: NodeId)
    ensures Knows(nodes, nodeId) <==> FindNode(nodes, nodeId).Some?
    ensures FindNode(nodes, nodeId).Some? ==> FindNode(nodes, nodeId).value.nodeId == nodeId
  {
  }

  function CooldownFrom(cfg: Settings, at: Time): Option<Time>
  {
    Some(at + cfg.reconciliationInterval * (if cfg.cooldownIntervals >= 1 then cfg.cooldownIntervals else 1))
  }

  // When a report starts a recovery.

  predicate CrashCalls(st: Service, r: CrashReport)
  {
    && Concerns(st, r.nodeId, r.generation) && Settled(st, r.occurredAt) && st.activeRecovery != Some(st.generation)
  }

  predicate HealthCalls(cfg: Settings, st: Service, r: HealthReport)
  {
    && !r.healthy && Concerns(st, r.nodeId, r.generation) && Settled(st, r.observedAt)
    && r.consecutiveFailures >= cfg.healthCheckRetries && Cooled(st, r.observedAt)
    && st.activeRecovery != Some(st.generation)
  }

  /** A crash report starts a recovery attempt exactly if it concerns the settled instance and no recovery of its
      generation is active; otherwise it changes nothing. */
  lemma CrashActsExactly(cfg: Settings, pick: Pick, st: Service, r: CrashReport, env: Environment)
    ensures Attempts(cfg, pick, st, CrashStep(r, env)) <==> CrashCalls(st, r)
    ensures !Attempts(cfg, pick, st, CrashStep(r, env)) ==>
              Apply(cfg, pick, st, CrashStep(r, env)) == st.(effects := [])
  {
    hide RestartSameNode, RescheduleExhausted, FindNode;
    if ReportIsCurrent(st, r.nodeId, r.generation) {
      var current := st.placement.value.nodeId;
      var marked := st.(effects := [], activeRecovery := Some(st.generation), restarts := st.restarts + 1)
                      .Observe(st.observed.value.(health := IsUnhealthy, lastReportedAt := r.occurredAt));
      RestartFacts(cfg, marked, current, r.occurredAt, env);
      RescheduleFacts(cfg, pick, marked, current, r.occurredAt, env);
    }
  }

  /** A health report starts a recovery attempt exactly if it is unhealthy, concerns the settled instance, reaches the
      threshold, meets no cooldown, and no recovery of its generation is active. */
  lemma HealthActsExactly(cfg: Settings, pick: Pick, st: Service, r: HealthReport, env: Environment)
    ensures Attempts(cfg, pick, st, HealthStep(r, env)) <==> HealthCalls(cfg, st, r)
  {
    hide RestartSameNode, RescheduleExhausted, FindNode, GiveUp;
    if ReportIsCurrent(st, r.nodeId, r.generation) && !r.healthy {
      var current := st.placement.value.nodeId;
      var active := st.(effects := [], activeRecovery := Some(st.generation))
                      .Observe(st.observed.value.(health := IsUnhealthy, lastReportedAt := r.observedAt));
      var counted := active.(restarts := st.restarts + 1);
      GiveUpFacts(active, CurrentNodeMissing, Pending, current, r.observedAt);
      RestartFacts(cfg, counted, current, r.observedAt, env);
      RescheduleFacts(cfg, pick, counted, current, r.observedAt, env);
    }
  }

  /** A healthy report of the current instance clears every trace of trouble; an unhealthy one that starts no recovery
      marks a settled instance and nothing else; any other report changes nothing. */
  lemma HealthOtherwise(cfg: Settings, pick: Pick, st: Service, r: HealthReport, env: Environment)
    requires !Attempts(cfg, pick, st, HealthStep(r, env))
    ensures var out := Apply(cfg, pick, st, HealthStep(r, env));
            if !Concerns(st, r.nodeId, r.generation) then out == st.(effects := [])
            else if r.healthy then
              out == st.(pending := None, cooldownUntil := None, restarts := 0, effects := [CounterReset],
                         observed := Some(st.observed.value.(
                           health := IsHealthy, status := Running, lastReportedAt := r.observedAt,
                           startupGraceUntil := None)),
                         desired := Some(st.desired.value.(status := Running, updatedAt := r.observedAt)))
            else if Settled(st, r.observedAt) then
              out == st.(effects := [],
                         observed := Some(st.observed.value.(health := IsUnhealthy, lastReportedAt := r.observedAt)))
            else out == st.(effects := [])
  {
    hide GuardedHealthRecovery;
    HealthActsExactly(cfg, pick, st, r, env);
    if Concerns(st, r.nodeId, r.generation) && st.activeRecovery == Some(st.generation) {
      var marked := st.(effects := [], observed := Some(st.observed.value.(health := IsUnhealthy,
                                                                           lastReportedAt := r.observedAt)));
      GuardTaken(cfg, pick, marked, r.observedAt, env);
    }
  }

  lemma GuardTaken(cfg: Settings, pick: Pick, st: Service, at: Time, env: Environment)
    requires st.placement.Some? && st.activeRecovery == Some(st.generation)
    ensures GuardedHealthRecovery(cfg, pick, st, at, env) == st
  {
  }

  // What a recovery attempt does.

  /** The observation as every attempt leaves it when it fails. */
  function Failing(o: ObservedState, status: Status, at: Time): ObservedState
  {
    o.(status := status, health := IsUnhealthy, lastReportedAt := at)
  }

  /** The service is given up on: it waits, with its placement, desired state and generation as they were. */
  predicate GivenUp(cfg: Settings, st: Service, reason: PendingReason, status: Status, restarts: nat, at: Time,
                    effects: seq<Effect>, out: Service)
  {
    && st.observed.Some?
    && out == st.(observed := Some(Failing(st.observed.value, status, at)),
                  pending := Some(PendingDeployment(st.id, reason, at)), restarts := restarts,
                  cooldownUntil := CooldownFrom(cfg, at), activeRecovery := None, effects := effects)
  }

  /** The agent of the home node was asked to restart the service. */
  predicate RestartOutcome(cfg: Settings, st: Service, home: NodeId, at: Time, ok: bool, out: Service)
  {
    && st.observed.Some?
    && if ok then
         out == st.(observed := Some(st.observed.value.(
                      status := Running, health := Unknown, lastReportedAt := at,
                      generation := st.generation + 1, startupGraceUntil := Some(at + cfg.startupGrace))),
                    generation := st.generation + 1, restarts := st.restarts + 1,
                    cooldownUntil := CooldownFrom(cfg, at), activeRecovery := None,
                    effects := [AgentRestart(home, true, true),
                                Recovered(RecoveryRecord(st.id, RestartedInPlace, home, home, at))])
       else
         GivenUp(cfg, st, RestartFailed, Failed, st.restarts + 1, at, [AgentRestart(home, false, true), IngressSync],
                 out)
  }

  /** The record at the moment of asking: counted, marked unhealthy, and guarded. */
  function Attempting(st: Service, at: Time): Service
    requires st.observed.Some?
  {
    st.(restarts := st.restarts + 1, activeRecovery := Some(st.generation),
        observed := Some(st.observed.value.(health := IsUnhealthy, lastReportedAt := at)))
  }

  lemma RestartLeaves(cfg: Settings, st: Service, home: NodeId, at: Time, env: Environment)
    requires st.observed.Some? && st.effects == []
    ensures RestartOutcome(cfg, st, home, at, env.restartOk,
                           RestartSameNode(cfg, Attempting(st, at), home, at, env).(activeRecovery := None))
  {
  }

  /** The agent of the chosen node was asked to deploy; if it accepted, the old node's agent was asked to stop. */
  predicate MovedAway(cfg: Settings, st: Service, nodes: seq<NodeState>, home: NodeId, target: NodeId, at: Time,
                      containerId: string, stopOk: bool, out: Service)
  {
    out == st.(placement := Some(Placement(st.id, target, at)), pending := None, restarts := 0,
               generation := st.generation + 1,
               observed := Some(ObservedState(Running, Unknown, Some(containerId), Some(target), at, st.generation + 1,
                                              Some(at + cfg.startupGrace))),
               cooldownUntil := CooldownFrom(cfg, at), activeRecovery := None,
               effects := [AgentDeploy(target, true)] + (if Knows(nodes, home) then [AgentStop(home, stopOk)] else [])
                          + [CounterReset,
                             Recovered(RecoveryRecord(st.id, RescheduledAfterRestarts, home, target, at)),
                             IngressSync])
  }

  ghost predicate RescheduleOutcome(cfg: Settings, pick: Pick, st: Service, home: NodeId, at: Time,
                                    env: Environment, out: Service)
    requires st.desired.Some?
  {
    var choice := pick(st.desired.value.service, WithoutNode(env.nodesAgain, home));
    if choice.None? then
      GivenUp(cfg, st, RestartExhaustedNoCandidate, Pending, st.restarts + 1, at, [IngressSync], out)
    else if !Knows(env.nodesAgain, choice.value) then
      GivenUp(cfg, st, RestartExhaustedTargetGone, Pending, st.restarts + 1, at, [IngressSync], out)
    else match env.deployReply
      case Refused(_) =>
        GivenUp(cfg, st, RestartExhaustedDeployFailed, Failed, st.restarts + 1, at,
                [AgentDeploy(choice.value, false), IngressSync], out)
      case Accepted(containerId) =>
        MovedAway(cfg, st, env.nodesAgain, home, choice.value, at, containerId, env.stopOk, out)
  }

  lemma RescheduleLeaves(cfg: Settings, pick: Pick, st: Service, home: NodeId, at: Time, env: Environment)
    requires st.observed.Some? && st.desired.Some? && st.effects == []
    ensures RescheduleOutcome(cfg, pick, st, home, at, env,
              RescheduleExhausted(cfg, pick, Attempting(st, at), home, at, env).(activeRecovery := None))
  {
    hide FindNode, WithoutNode, Knows, DeployAfterRestarts, GiveUp, GivenUp;
    var choice := pick(st.desired.value.service, WithoutNode(env.nodesAgain, home));
    GivingUpLeaves(cfg, st, RestartExhaustedNoCandidate, home, at);
    GivingUpLeaves(cfg, st, RestartExhaustedTargetGone, home, at);
    if choice.Some? {
      KnowsMeans(env.nodesAgain, choice.value);
      DeployAfterRestartsLeaves(cfg, st, home, choice.value, at, env);
    }
  }

  lemma GivingUpLeaves(cfg: Settings, st: Service, reason: PendingReason, home: NodeId, at: Time)
    requires st.observed.Some? && st.effects == []
    ensures GivenUp(cfg, st, reason, Pending, st.restarts + 1, at, [IngressSync],
                    GiveUp(Attempting(st, at), reason, Pending, home, at).CoolDown(cfg, at).(activeRecovery := None))
  {
  }

  lemma DeployAfterRestartsLeaves(cfg: Settings, st: Service, home: NodeId, target: NodeId, at: Time, env: Environment)
    requires st.observed.Some? && st.effects == []
    ensures var out := DeployAfterRestarts(cfg, Attempting(st, at), home, target, at, env).(activeRecovery := None);
            match env.deployReply
            case Refused(_) =>
              GivenUp(cfg, st, RestartExhaustedDeployFailed, Failed, st.restarts + 1, at,
                      [AgentDeploy(target, false), IngressSync], out)
            case Accepted(containerId) =>
              MovedAway(cfg, st, env.nodesAgain, home, target, at, containerId, env.stopOk, out)
  {
    hide FindNode, Knows;
    KnowsMeans(env.nodesAgain, home);
  }

  /** A recovery attempt asks the agent of the placed node for a restart while the budget lasts and the node is known,
      and reschedules otherwise; a health report whose node is unknown gives up without counting. */
  lemma AttemptOutcome(cfg: Settings, pick: Pick, st: Service, step: Step)
    requires Attempts(cfg, pick, st, step)
    ensures st.placement.Some? && st.desired.Some?
    ensures var out := Apply(cfg, pick, st, step);
            var home := st.placement.value.nodeId;
            if step.HealthStep? && !Knows(step.env.nodes, home) then
              GivenUp(cfg, st, CurrentNodeMissing, Pending, st.restarts, step.Time(), [IngressSync], out)
            else if st.restarts < cfg.maxRestartAttempts && Knows(step.env.nodes, home) then
              RestartOutcome(cfg, st, home, step.Time(), step.env.restartOk, out)
            else
              RescheduleOutcome(cfg, pick, st, home, step.Time(), step.env, out)
  {
    hide RestartSameNode, RescheduleExhausted, RestartOutcome, RescheduleOutcome, FindNode, Knows, OnCrash, OnHealth;
    hide GivenUp;
    var at, clean := step.Time(), st.(effects := []);
    match step {
      case CrashStep(r, env) =>
        CrashActsExactly(cfg, pick, st, r, env);
        CrashAttempt(cfg, pick, clean, r, env);
      case HealthStep(r, env) =>
        HealthActsExactly(cfg, pick, st, r, env);
        HealthAttempt(cfg, pick, clean, r, env);
    }
    var home := st.placement.value.nodeId;
    RestartLeaves(cfg, clean, home, at, step.env);
    RescheduleLeaves(cfg, pick, clean, home, at, step.env);
    SameOutcomes(cfg, pick, st, home, at, step.env, Apply(cfg, pick, st, step));
  }

  lemma CrashAttempt(cfg: Settings, pick: Pick, st: Service, r: CrashReport, env: Environment)
    requires st.effects == [] && CrashCalls(st, r)
    ensures OnCrash(cfg, pick, st, r, env) ==
            (if st.restarts < cfg.maxRestartAttempts && Knows(env.nodes, r.nodeId)
             then RestartSameNode(cfg, Attempting(st, r.occurredAt), r.nodeId, r.occurredAt, env)
             else RescheduleExhausted(cfg, pick, Attempting(st, r.occurredAt), r.nodeId, r.occurredAt, env))
            .(activeRecovery := None)
  {
    hide RestartSameNode, RescheduleExhausted, FindNode, Knows;
    KnowsMeans(env.nodes, r.nodeId);
  }

  lemma HealthAttempt(cfg: Settings, pick: Pick, st: Service, r: HealthReport, env: Environment)
    requires st.effects == [] && HealthCalls(cfg, st, r)
    ensures var out := OnHealth(cfg, pick, st, r, env);
            if !Knows(env.nodes, r.nodeId) then
              GivenUp(cfg, st, CurrentNodeMissing, Pending, st.restarts, r.observedAt, [IngressSync], out)
            else out == (if st.restarts < cfg.maxRestartAttempts
                         then RestartSameNode(cfg, Attempting(st, r.observedAt), r.nodeId, r.observedAt, env)
                         else RescheduleExhausted(cfg, pick, Attempting(st, r.observedAt), r.nodeId, r.observedAt, env))
                        .(activeRecovery := None)
  {
    hide RestartSameNode, RescheduleExhausted, FindNode, Knows;
    KnowsMeans(env.nodes, r.nodeId);
  }

  lemma SameOutcomes(cfg: Settings, pick: Pick, st: Service, home: NodeId, at: Time, env: Environment, out: Service)
    requires st.desired.Some?
    ensures var clean := st.(effects := []);
            && (RestartOutcome(cfg, clean, home, at, env.restartOk, out) ==>
                  RestartOutcome(cfg, st, home, at, env.restartOk, out))
            && (RescheduleOutcome(cfg, pick, clean, home, at, env, out) ==>
                  RescheduleOutcome(cfg, pick, st, home, at, env, out))
            && (GivenUp(cfg, clean, CurrentNodeMissing, Pending, st.restarts, at, [IngressSync], out) ==>
                  GivenUp(cfg, st, CurrentNodeMissing, Pending, st.restarts, at, [IngressSync], out))
  {
    hide Knows;
  }

  // Node unreachable.

  /** The node-unreachable handler moves the service off the node of its list entry, or leaves it waiting; it needs a
      desired state and nothing else. */
  lemma UnreachableOutcome(cfg: Settings, pick: Pick, st: Service, listed: Placement, at: Time, env: Environment)
    ensures var out := Apply(cfg, pick, st, UnreachableStep(listed, at, env));
            if st.desired.None? then out == st.(effects := [])
            else
              var choice := pick(st.desired.value.service, WithoutNode(env.nodes, listed.nodeId));
              var o := st.observed.GetOr(ObservedState(Pending, Unknown, None, Some(listed.nodeId), at, 0, None));
              if choice.None? then
                out == st.(pending := Some(PendingDeployment(st.id, UnreachableNoCandidate, at)),
                           observed := Some(o.(status := Pending, health := Unknown, nodeId := None,
                                               lastReportedAt := at)),
                           effects := [IngressSync])
              else if !Knows(env.nodes, choice.value) then
                out == st.(pending := Some(PendingDeployment(st.id, UnreachableTargetGone, at)),
                           observed := Some(Failing(o, Pending, at)), effects := [IngressSync])
              else match env.deployReply
                case Refused(_) =>
                  out == st.(pending := Some(PendingDeployment(st.id, UnreachableDeployFailed, at)),
                             effects := [AgentDeploy(choice.value, false), IngressSync],
                             observed := Some(Failing(o, Failed, at)))
                case Accepted(containerId) =>
                  out == st.(placement := Some(Placement(st.id, choice.value, at)), pending := None, restarts := 0,
                             generation := st.generation + 1,
                             observed := Some(ObservedState(Running, Unknown, Some(containerId), Some(choice.value), at,
                                                            st.generation + 1, Some(at + cfg.startupGrace))),
                             effects := [AgentDeploy(choice.value, true), CounterReset,
                                         Recovered(RecoveryRecord(st.id, RescheduledFromUnreachable, listed.nodeId,
                                                                  choice.value, at)), IngressSync])
  {
    hide FindNode, WithoutNode, Knows;
    if st.desired.Some? {
      var choice := pick(st.desired.value.service, WithoutNode(env.nodes, listed.nodeId));
      if choice.Some? { KnowsMeans(env.nodes, choice.value); }
    }
  }

  // The service manager.

  /** A deployment of a service that is not running: it waits when no node is found or the agent refuses, and otherwise
      it runs on the chosen node, with its pending record gone and a fresh counter. */
  lemma DeployOutcome(cfg: Settings, pick: Pick, st: Service, spec: ServiceSpec, now: Time, env: Environment)
    ensures var out := Apply(cfg, pick, st, DeployStep(spec, now, env));
            var choice := pick(spec, env.nodes);
            var wanted := Some(DesiredState(spec, Deploying, now, now));
            if st.observed.Some? && st.observed.value.status == Running then out == st.(effects := [])
            else if choice.None? then
              out == st.(desired := wanted, pending := Some(PendingDeployment(st.id, NoEligibleNode, now)),
                         observed := Some(ObservedState(PlacementFailed, Unknown, None, None, now, 0, None)),
                         effects := [IngressSync])
            else if !Knows(env.nodes, choice.value) then out == st.(desired := wanted, effects := [])
            else match env.deployReply
              case Refused(error) =>
                out == st.(desired := wanted, pending := Some(PendingDeployment(st.id, AgentRefused(error), now)),
                           observed := Some(ObservedState(Pending, Unknown, None, None, now, 0, None)),
                           effects := [AgentDeploy(choice.value, false), IngressSync])
              case Accepted(containerId) =>
                out == st.(desired := Some(DesiredState(spec, Running, now, now)), pending := None, restarts := 0,
                           placement := Some(Placement(st.id, choice.value, now)),
                           observed := Some(ObservedState(Running, Unknown, Some(containerId), Some(choice.value), now,
                                                          0, None)),
                           effects := [AgentDeploy(choice.value, true), CounterReset, IngressSync])
  {
    hide FindNode, Knows;
    var choice := pick(spec, env.nodes);
    if choice.Some? { KnowsMeans(env.nodes, choice.value); }
  }

  lemma RetryOutcome(cfg: Settings, pick: Pick, st: Service, now: Time, env: Environment)
    ensures Apply(cfg, pick, st, RetryStep(now, env)) ==
            if st.desired.None? then st.(pending := None, effects := [])
            else Apply(cfg, pick, st, DeployStep(st.desired.value.service, now, env))
  {
  }

  /** A stop asks the agent of the placed node, and no other, to stop the container exactly if the node is known; it
      does so before the ingress is notified, and it records the stop whatever the agent answers. */
  lemma StopOutcome(cfg: Settings, pick: Pick, st: Service, now: Time, env: Environment)
    ensures var out := Apply(cfg, pick, st, StopStep(now, env));
            && out == st.(observed := Some(ObservedState(Stopped, Unknown, None, None, now, 0, None)),
                          placement := None, pending := None, restarts := 0, effects := out.effects,
                          desired := if st.desired.None? then None
                                     else Some(st.desired.value.(status := Stopped, updatedAt := now)))
            && out.effects ==
                 (if st.placement.Some? && Knows(env.nodes, st.placement.value.nodeId)
                  then [AgentStop(st.placement.value.nodeId, env.stopOk)] else []) + [CounterReset, IngressSync]
            && (forall n, ok :: AgentStop(n, ok) in out.effects <==>
                  st.placement.Some? && Knows(env.nodes, n) && n == st.placement.value.nodeId && ok == env.stopOk)
  {
    hide FindNode, Knows;
    if st.placement.Some? { KnowsMeans(env.nodes, st.placement.value.nodeId); }
  }

  /** An API restart asks the agent of the placed node if that node is known, and records the service as running if the
      agent did it; counter, generation, pending record and cooldown stay. */
  lemma ApiRestartOutcome(cfg: Settings, pick: Pick, st: Service, now: Time, env: Environment)
    ensures var out := Apply(cfg, pick, st, RestartStep(now, env));
            if st.placement.None? || !Knows(env.nodes, st.placement.value.nodeId) then out == st.(effects := [])
            else
              var home := st.placement.value.nodeId;
              if !env.restartOk then out == st.(effects := [AgentRestart(home, false, false)])
              else
                out == st.(effects := [AgentRestart(home, true, false), IngressSync],
                           observed := Some(if st.observed.Some?
                                            then st.observed.value.(status := Running, health := Unknown)
                                            else ObservedState(Running, Unknown, None, Some(home), now, 0, None)))
  {
    hide FindNode, Knows;
    if st.placement.Some? { KnowsMeans(env.nodes, st.placement.value.nodeId); }
  }
}
