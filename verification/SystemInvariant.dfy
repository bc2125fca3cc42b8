// What every handler keeps: no lost work, no wrong placement, and a stopped service is really stopped.

module SystemInvariant {
  import opened Models
  import opened Lifecycle

  ghost predicate NoLostWork(st: Service)
  {
    st.IsObserved(Pending) || st.IsObserved(PlacementFailed) || st.IsObserved(Failed) ==>
      st.pending.Some? && st.WantsToRun()
  }

  ghost predicate Placed(st: Service)
  {
    && (st.IsObserved(Running) ==> st.placement.Some?)
    && (st.placement.Some? ==> st.observed.Some?)
    && (st.placement.Some? && st.observed.value.nodeId.Some? ==>
          st.observed.value.nodeId.value == st.placement.value.nodeId)
  }

  ghost predicate DesireRespected(st: Service)
  {
    && (st.placement.Some? || st.pending.Some? ==> st.WantsToRun())
    && (st.desired.Some? && st.desired.value.status == Stopped ==>
         st.IsObserved(Stopped) && st.placement.None? && st.pending.None?)
  }

  ghost predicate GenerationKnown(st: Service)
  {
    st.observed.Some? ==> st.observed.value.generation == 0 || st.observed.value.generation == st.generation
  }

  ghost predicate RecordsAddressed(st: Service)
  {
    && (st.placement.Some? ==> st.placement.value.serviceId == st.id)
    && (st.pending.Some? ==> st.pending.value.serviceId == st.id)
    && (st.desired.Some? ==> st.desired.value.service.serviceId == st.id)
  }

  ghost predicate Sound(st: Service)
  {
    && NoLostWork(st) && Placed(st) && DesireRespected(st)
    && GenerationKnown(st) && RecordsAddressed(st)
    && st.activeRecovery.None?
  }

  /** A deploy request is dispatched to the service it names. */
  predicate Addressed(st: Service, step: Step)
  {
    step.DeployStep? ==> step.spec.serviceId == st.id
  }

  /** The one step that can break the invariant: the service was stopped between the reading of the
      placement list and the taking of its lock. */
  predicate StoppedBehindTheList(st: Service, step: Step)
  {
    step.UnreachableStep? && st.desired.Some? && st.desired.value.status == Stopped
  }

  /** A failing recovery of a service that is meant to run loses no work. */
  lemma GiveUpKeeps(st: Service, reason: PendingReason, status: Status, node: NodeId, at: Time)
    requires Sound(st.(activeRecovery := None)) && st.WantsToRun()
    requires status == Pending || status == Failed
    ensures Sound(GiveUp(st, reason, status, node, at).(activeRecovery := None))
    ensures GiveUp(st, reason, status, node, at).id == st.id
    ensures GiveUp(st, reason, status, node, at).activeRecovery == st.activeRecovery
  {
  }

  lemma MoveKeeps(cfg: Settings, st: Service, target: NodeId, containerId: string, at: Time)
    requires Sound(st.(activeRecovery := None)) && st.WantsToRun()
    ensures Sound(MovedTo(cfg, st, target, containerId, at).(activeRecovery := None))
    ensures MovedTo(cfg, st, target, containerId, at).id == st.id
    ensures MovedTo(cfg, st, target, containerId, at).activeRecovery == st.activeRecovery
  {
  }

  lemma RestartKeeps(cfg: Settings, st: Service, at: Time, env: Environment)
    requires Sound(st.(activeRecovery := None)) && st.WantsToRun() && st.placement.Some?
    ensures Sound(RestartSameNode(cfg, st, st.placement.value.nodeId, at, env).(activeRecovery := None))
    ensures RestartSameNode(cfg, st, st.placement.value.nodeId, at, env).id == st.id
  {
  }

  lemma RescheduleKeeps(cfg: Settings, pick: Pick, st: Service, at: Time, env: Environment)
    requires Sound(st.(activeRecovery := None)) && st.WantsToRun() && st.placement.Some?
    ensures Sound(RescheduleExhausted(cfg, pick, st, st.placement.value.nodeId, at, env).(activeRecovery := None))
    ensures RescheduleExhausted(cfg, pick, st, st.placement.value.nodeId, at, env).id == st.id
  {
    hide GiveUp, MovedTo;
    var current := st.placement.value.nodeId;
    var choice := pick(st.desired.value.service, WithoutNode(env.nodesAgain, current));
    if choice.None? {
      GiveUpKeeps(st, RestartExhaustedNoCandidate, Pending, current, at);
    } else if FindNode(env.nodesAgain, choice.value).None? {
      GiveUpKeeps(st, RestartExhaustedTargetGone, Pending, current, at);
    } else {
      var target := FindNode(env.nodesAgain, choice.value).value.nodeId;
      match env.deployReply
      case Refused(_) =>
        GiveUpKeeps(st.Did(AgentDeploy(target, false)), RestartExhaustedDeployFailed, Failed, current, at);
      case Accepted(containerId) =>
        var deployed := st.Did(AgentDeploy(target, true));
        MoveKeeps(cfg, deployed, target, containerId, at);
        MoveKeeps(cfg, deployed.Did(AgentStop(current, env.stopOk)), target, containerId, at);
    }
  }

  lemma CrashKeeps(cfg: Settings, pick: Pick, st: Service, r: CrashReport, env: Environment)
    requires Sound(st)
    ensures Sound(OnCrash(cfg, pick, st, r, env)) && OnCrash(cfg, pick, st, r, env).id == st.id
  {
    hide RestartSameNode, RescheduleExhausted;
    if ReportIsCurrent(st, r.nodeId, r.generation) {
      var marked := st.(activeRecovery := Some(st.generation), restarts := st.restarts + 1)
                      .Observe(st.observed.value.(health := IsUnhealthy, lastReportedAt := r.occurredAt));
      RestartKeeps(cfg, marked, r.occurredAt, env);
      RescheduleKeeps(cfg, pick, marked, r.occurredAt, env);
    }
  }

  lemma HealthKeeps(cfg: Settings, pick: Pick, st: Service, r: HealthReport, env: Environment)
    requires Sound(st)
    ensures Sound(OnHealth(cfg, pick, st, r, env)) && OnHealth(cfg, pick, st, r, env).id == st.id
  {
    hide RestartSameNode, RescheduleExhausted;
    if ReportIsCurrent(st, r.nodeId, r.generation) && !r.healthy {
      var counted := st.(activeRecovery := Some(st.generation), restarts := st.restarts + 1)
                       .Observe(st.observed.value.(health := IsUnhealthy, lastReportedAt := r.observedAt));
      RestartKeeps(cfg, counted, r.observedAt, env);
      RescheduleKeeps(cfg, pick, counted, r.observedAt, env);
    }
  }

  lemma UnreachableKeeps(cfg: Settings, pick: Pick, st: Service, listed: Placement, at: Time, env: Environment)
    requires Sound(st) && !(st.desired.Some? && st.desired.value.status == Stopped)
    ensures Sound(OnUnreachable(cfg, pick, st, listed, at, env))
    ensures OnUnreachable(cfg, pick, st, listed, at, env).id == st.id
  {
    hide GiveUp, MovedTo;
    if st.desired.Some? {
      var choice := pick(st.desired.value.service, WithoutNode(env.nodes, listed.nodeId));
      GiveUpKeeps(st, UnreachableTargetGone, Pending, listed.nodeId, at);
      if choice.Some? && FindNode(env.nodes, choice.value).Some? {
        var target := FindNode(env.nodes, choice.value).value.nodeId;
        GiveUpKeeps(st.Did(AgentDeploy(target, false)), UnreachableDeployFailed, Failed, listed.nodeId, at);
        if env.deployReply.Accepted? {
          MoveKeeps(cfg, st.Did(AgentDeploy(target, true)), target, env.deployReply.containerId, at);
        }
      }
    }
  }

  lemma UnreachableResurrects(cfg: Settings, pick: Pick, st: Service, listed: Placement, at: Time, env: Environment)
    requires Sound(st) && st.desired.Some? && st.desired.value.status == Stopped
    ensures !DesireRespected(OnUnreachable(cfg, pick, st, listed, at, env))
    ensures OnUnreachable(cfg, pick, st, listed, at, env).id == st.id
  {
  }

  lemma UnplacedKeeps(st: Service, spec: ServiceSpec, status: Status, reason: PendingReason, now: Time, e: seq<Effect>)
    requires Sound(st) && spec.serviceId == st.id && !st.IsObserved(Running)
    requires status == Pending || status == PlacementFailed
    ensures var wanted := st.(desired := Some(DesiredState(spec, Deploying, now, now)), effects := e);
            Sound(Unplaced(wanted, status, reason, now))
  {
  }

  lemma DeployKeeps(pick: Pick, st: Service, spec: ServiceSpec, now: Time, env: Environment)
    requires Sound(st) && spec.serviceId == st.id
    ensures Sound(Deploy(pick, st, spec, now, env)) && Deploy(pick, st, spec, now, env).id == st.id
  {
    if !st.IsObserved(Running) {
      UnplacedKeeps(st, spec, PlacementFailed, NoEligibleNode, now, st.effects);
      var choice := pick(spec, env.nodes);
      if choice.Some? && FindNode(env.nodes, choice.value).Some? && env.deployReply.Refused? {
        var target := FindNode(env.nodes, choice.value).value.nodeId;
        UnplacedKeeps(st, spec, Pending, AgentRefused(env.deployReply.error), now,
                      st.effects + [AgentDeploy(target, false)]);
      }
    }
  }

  /** Every step keeps the invariant, whatever the scheduler and the agents answer, except exactly the
      node-unreachable step on a service whose desired state is stopped. */
  lemma StepKeepsInvariant(cfg: Settings, pick: Pick, st: Service, step: Step)
    requires Sound(st) && Addressed(st, step)
    ensures Sound(Apply(cfg, pick, st, step)) <==> !StoppedBehindTheList(st, step)
    ensures Apply(cfg, pick, st, step).id == st.id
  {
    hide OnCrash, OnHealth, OnUnreachable, Deploy;
    var clean := st.(effects := []);
    match step
    case CrashStep(r, env) => CrashKeeps(cfg, pick, clean, r, env);
    case HealthStep(r, env) => HealthKeeps(cfg, pick, clean, r, env);
    case UnreachableStep(listed, at, env) =>
      if StoppedBehindTheList(st, step) {
        UnreachableResurrects(cfg, pick, clean, listed, at, env);
      } else {
        UnreachableKeeps(cfg, pick, clean, listed, at, env);
      }
    case DeployStep(spec, at, env) => DeployKeeps(pick, clean, spec, at, env);
    case StopStep(_, _) =>
    case RestartStep(_, _) =>
    case RetryStep(at, env) =>
      if st.desired.Some? { DeployKeeps(pick, clean, st.desired.value.service, at, env); }
  }

  /** No step of the run meets a stopped service through an outdated placement list. */
  ghost predicate ListsHold(cfg: Settings, pick: Pick, st: Service, steps: seq<Step>)
    decreases |steps|
  {
    steps == [] ||
    (&& Addressed(st, steps[0]) && !StoppedBehindTheList(st, steps[0])
     && ListsHold(cfg, pick, Apply(cfg, pick, st, steps[0]), steps[1..]))
  }

  lemma {:induction false} RunKeepsInvariant(cfg: Settings, pick: Pick, st: Service, steps: seq<Step>)
    requires Sound(st) && ListsHold(cfg, pick, st, steps)
    ensures Sound(Run(cfg, pick, st, steps)) && Run(cfg, pick, st, steps).id == st.id
    decreases |steps|
  {
    if steps != [] {
      StepKeepsInvariant(cfg, pick, st, steps[0]);
      RunKeepsInvariant(cfg, pick, Apply(cfg, pick, st, steps[0]), steps[1..]);
    }
  }
}
