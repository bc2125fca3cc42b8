// The recovery state machine of one service: what each handler of controller/self_healing.py and
// controller/service_manager.py does to the service's record when it runs under the service lock.
// The manager classes are proved against these functions, and every run-level theorem is about them.

module Lifecycle {
  import opened Models
  import Scheduler

  /** The settings of controller/config.py that the handlers read. */
  datatype Settings = Settings(
    maxRestartAttempts: int,
    healthCheckRetries: int,
    reconciliationInterval: int,
    cooldownIntervals: int,
    startupGrace: nat,
    heartbeatTimeout: int)

  /** A scheduler: the managers take any, and `LEAST_LOAD` is the one the controller wires in. */
  type Pick = (ServiceSpec, seq<NodeState>) -> Option<NodeId>

  const LEAST_LOAD: Pick := (spec, nodes) => Scheduler.Choose(spec, nodes)

  datatype DeployReply = Accepted(containerId: string) | Refused(error: string)

  /** What a handler learns from outside the service: the node table at its first and at its second
      read, and the outcome of each kind of agent call it may make. */
  datatype Environment = Environment(
    nodes: seq<NodeState>,
    nodesAgain: seq<NodeState>,
    deployReply: DeployReply,
    restartOk: bool,
    stopOk: bool)

  /** What a handler does that others can see, in order.  `healing` tells a self-healing restart from
      one requested through the API. */
  datatype Effect =
    | AgentDeploy(node: NodeId, ok: bool)
    | AgentRestart(node: NodeId, ok: bool, healing: bool)
    | AgentStop(node: NodeId, ok: bool)
    | CounterReset
    | Recovered(record: RecoveryRecord)
    | IngressSync

  /** The record of one service over all store tables and the in-memory tables of self-healing.
      `effects` is what the handler that ran last did. */
  datatype Service = Service(
    id: ServiceId,
    desired: Option<DesiredState>,
    observed: Option<ObservedState>,
    placement: Option<Placement>,
    pending: Option<PendingDeployment>,
    restarts: nat,
    generation: nat,
    cooldownUntil: Option<Time>,
    activeRecovery: Option<nat>,
    effects: seq<Effect>)
  {
    function Did(e: Effect): Service { this.(effects := effects + [e]) }

    function Observe(o: ObservedState): Service { this.(observed := Some(o)) }

    function Park(reason: PendingReason, at: Time): Service
    {
      this.(pending := Some(PendingDeployment(id, reason, at)))
    }

    function ResetRestarts(): Service { this.(restarts := 0).Did(CounterReset) }

    /** `observed.model_copy(...)` of the stored observation, or a fresh record when there is none. */
    function ObserveOr(status: Status, health: Health, freshNode: Option<NodeId>, at: Time): Service
    {
      match observed
      case Some(o) => Observe(o.(status := status, health := health, lastReportedAt := at))
      case None => Observe(ObservedState(status, health, None, freshNode, at, 0, None))
    }

    function CoolDown(cfg: Settings, at: Time): Service
    {
      this.(cooldownUntil := Some(at + CooldownLength(cfg)))
    }

    predicate WantsToRun() { desired.Some? && desired.value.status != Stopped }

    predicate IsObserved(status: Status) { observed.Some? && observed.value.status == status }
  }

  function Fresh(id: ServiceId): Service
  {
    Service(id, None, None, None, None, 0, 0, None, None, [])
  }

  function CooldownLength(cfg: Settings): int
  {
    cfg.reconciliationInterval * (if cfg.cooldownIntervals > 1 then cfg.cooldownIntervals else 1)
  }

  predicate InStartupGrace(o: ObservedState, at: Time)
  {
    o.startupGraceUntil.Some? && at < o.startupGraceUntil.value
  }

  predicate InCooldown(st: Service, at: Time)
  {
    st.cooldownUntil.Some? && at < st.cooldownUntil.value
  }

  // Self-healing.

  /** The guards both report handlers share: the report is about the current instance of a placed
      service that is meant to run. */
  predicate ReportIsCurrent(st: Service, nodeId: NodeId, tag: Option<int>)
  {
    && st.observed.Some?
    && st.WantsToRun()
    && st.placement.Some?
    && st.placement.value.nodeId == nodeId
    && (tag.Some? ==> tag.value == st.generation)
  }

  function OnCrash(cfg: Settings, pick: Pick, st: Service, r: CrashReport, env: Environment): Service
  {
    if !ReportIsCurrent(st, r.nodeId, r.generation) then st
    else if InStartupGrace(st.observed.value, r.occurredAt) then st
    else if st.activeRecovery == Some(st.generation) then st
    else
      CrashRecovery(cfg, pick, st.(activeRecovery := Some(st.generation)), r.occurredAt, env).(activeRecovery := None)
  }

  /** What a crash report does once the recovery guard is taken. */
  function CrashRecovery(cfg: Settings, pick: Pick, st: Service, at: Time, env: Environment): Service
    requires st.observed.Some? && st.placement.Some?
  {
    var marked := st.(restarts := st.restarts + 1)
                    .Observe(st.observed.value.(health := IsUnhealthy, lastReportedAt := at));
    var node := FindNode(env.nodes, st.placement.value.nodeId);
    if marked.restarts <= cfg.maxRestartAttempts && node.Some? then
      RestartSameNode(cfg, marked, node.value.nodeId, at, env)
    else
      RescheduleExhausted(cfg, pick, marked, st.placement.value.nodeId, at, env)
  }

  function OnHealth(cfg: Settings, pick: Pick, st: Service, r: HealthReport, env: Environment): Service
  {
    if !ReportIsCurrent(st, r.nodeId, r.generation) then st
    else if r.healthy then
      MarkedHealthy(st, st.observed.value, st.desired.value, r.observedAt)
    else OnUnhealthy(cfg, pick, st, st.observed.value, r, env)
  }

  function OnUnhealthy(cfg: Settings, pick: Pick, st: Service, observed: ObservedState, r: HealthReport,
                       env: Environment): Service
    requires st.placement.Some?
  {
    if InStartupGrace(observed, r.observedAt) then st
    else
      var unhealthy := st.Observe(observed.(health := IsUnhealthy, lastReportedAt := r.observedAt));
      if r.consecutiveFailures < cfg.healthCheckRetries then unhealthy
      else if InCooldown(st, r.observedAt) then unhealthy
      else GuardedHealthRecovery(cfg, pick, unhealthy, r.observedAt, env)
  }

  function GuardedHealthRecovery(cfg: Settings, pick: Pick, st: Service, at: Time, env: Environment): Service
    requires st.placement.Some?
  {
    if st.activeRecovery == Some(st.generation) then st
    else HealthRecovery(cfg, pick, st.(activeRecovery := Some(st.generation)), at, env).(activeRecovery := None)
  }

  /** A healthy report of the current instance clears every trace of trouble. */
  function MarkedHealthy(st: Service, observed: ObservedState, desired: DesiredState, at: Time): Service
  {
    st.(pending := None, cooldownUntil := None).ResetRestarts()
      .Observe(observed.(health := IsHealthy, status := Running, lastReportedAt := at, startupGraceUntil := None))
      .(desired := Some(desired.(status := Running, updatedAt := at)))
  }

  /** What an unhealthy report does once the recovery guard is taken. */
  function HealthRecovery(cfg: Settings, pick: Pick, st: Service, at: Time, env: Environment): Service
    requires st.placement.Some?
  {
    var node := FindNode(env.nodes, st.placement.value.nodeId);
    if node.None? then
      GiveUp(st, CurrentNodeMissing, Pending, st.placement.value.nodeId, at).CoolDown(cfg, at)
    else
      var counted := st.(restarts := st.restarts + 1);
      if counted.restarts <= cfg.maxRestartAttempts then
        RestartSameNode(cfg, counted, node.value.nodeId, at, env)
      else
        RescheduleExhausted(cfg, pick, counted, node.value.nodeId, at, env)
  }

  /** A recovery that fails: the service is left unhealthy with a pending record.  `node` is recorded
      only when there was no observation before. */
  function GiveUp(st: Service, reason: PendingReason, status: Status, node: NodeId, at: Time): Service
  {
    st.Park(reason, at).ObserveOr(status, IsUnhealthy, Some(node), at).Did(IngressSync)
  }

  function RestartSameNode(cfg: Settings, st: Service, nodeId: NodeId, at: Time, env: Environment): Service
  {
    var called := st.Did(AgentRestart(nodeId, env.restartOk, true));
    if !env.restartOk then GiveUp(called, RestartFailed, Failed, nodeId, at).CoolDown(cfg, at)
    else RestartedOn(cfg, called, nodeId, at).CoolDown(cfg, at)
  }

  /** The record after an agent restarted the service for self-healing. */
  function RestartedOn(cfg: Settings, st: Service, nodeId: NodeId, at: Time): Service
  {
    var next := st.(generation := st.generation + 1);
    var seen := if next.observed.None? then next else
      next.Observe(next.observed.value.(
        health := Unknown, status := Running, lastReportedAt := at,
        generation := next.generation, startupGraceUntil := Some(at + cfg.startupGrace)));
    seen.Did(Recovered(RecoveryRecord(st.id, RestartedInPlace, nodeId, nodeId, at)))
  }

  /** The record after a deploy on `target` was accepted by one of the two reschedule procedures. */
  function MovedTo(cfg: Settings, st: Service, target: NodeId, containerId: string, at: Time): Service
  {
    st.(generation := st.generation + 1, placement := Some(Placement(st.id, target, at)), pending := None)
      .ResetRestarts()
      .Observe(ObservedState(Running, Unknown, Some(containerId), Some(target), at,
                             st.generation + 1, Some(at + cfg.startupGrace)))
  }

  function RescheduleExhausted(cfg: Settings, pick: Pick, st: Service, current: NodeId, at: Time,
                               env: Environment): Service
  {
    if st.desired.None? then st
    else
      var choice := pick(st.desired.value.service, WithoutNode(env.nodesAgain, current));
      if choice.None? then
        GiveUp(st, RestartExhaustedNoCandidate, Pending, current, at).CoolDown(cfg, at)
      else
        var target := FindNode(env.nodesAgain, choice.value);
        if target.None? then
          GiveUp(st, RestartExhaustedTargetGone, Pending, current, at).CoolDown(cfg, at)
        else
          DeployAfterRestarts(cfg, st, current, target.value.nodeId, at, env)
  }

  /** The second half: ask the target's agent, then stop the old instance on its node if that is still known. */
  function DeployAfterRestarts(cfg: Settings, st: Service, current: NodeId, target: NodeId, at: Time,
                               env: Environment): Service
  {
    match env.deployReply
    case Refused(_) =>
      GiveUp(st.Did(AgentDeploy(target, false)), RestartExhaustedDeployFailed, Failed, current, at).CoolDown(cfg, at)
    case Accepted(containerId) =>
      var deployed := st.Did(AgentDeploy(target, true));
      var stopped := if FindNode(env.nodesAgain, current).None? then deployed
                     else deployed.Did(AgentStop(current, env.stopOk));
      MovedTo(cfg, stopped, target, containerId, at)
        .Did(Recovered(RecoveryRecord(st.id, RescheduledAfterRestarts, current, target, at)))
        .CoolDown(cfg, at).Did(IngressSync)
  }

  /** `_reschedule_from_unreachable_node`: `listed` is the placement read before the lock was taken. */
  function OnUnreachable(cfg: Settings, pick: Pick, st: Service, listed: Placement, at: Time, env: Environment): Service
  {
    if st.desired.None? then st
    else
      var choice := pick(st.desired.value.service, WithoutNode(env.nodes, listed.nodeId));
      if choice.None? then
        ParkedWithoutNode(st, at)
      else
        var target := FindNode(env.nodes, choice.value);
        if target.None? then
          GiveUp(st, UnreachableTargetGone, Pending, listed.nodeId, at)
        else
          DeployFromUnreachable(cfg, st, listed, target.value.nodeId, at, env)
  }

  function ParkedWithoutNode(st: Service, at: Time): Service
  {
    var parked := st.Park(UnreachableNoCandidate, at).ObserveOr(Pending, Unknown, None, at);
    parked.Observe(parked.observed.value.(nodeId := None)).Did(IngressSync)
  }

  function DeployFromUnreachable(cfg: Settings, st: Service, listed: Placement, target: NodeId, at: Time,
                                 env: Environment): Service
  {
    match env.deployReply
    case Refused(_) =>
      GiveUp(st.Did(AgentDeploy(target, false)), UnreachableDeployFailed, Failed, listed.nodeId, at)
    case Accepted(containerId) =>
      MovedTo(cfg, st.Did(AgentDeploy(target, true)), target, containerId, at)
        .Did(Recovered(RecoveryRecord(st.id, RescheduledFromUnreachable, listed.nodeId, target, at)))
        .Did(IngressSync)
  }

  // The service manager.

  /** A deployment that found no node or that the agent refused. */
  function Unplaced(st: Service, status: Status, reason: PendingReason, now: Time): Service
  {
    st.Observe(ObservedState(status, Unknown, None, None, now, 0, None)).Park(reason, now).Did(IngressSync)
  }

  function DeployedOn(st: Service, target: NodeId, containerId: string, spec: ServiceSpec, now: Time): Service
  {
    st.(placement := Some(Placement(st.id, target, now)), pending := None,
        desired := Some(DesiredState(spec, Running, now, now)))
      .Observe(ObservedState(Running, Unknown, Some(containerId), Some(target), now, 0, None))
      .ResetRestarts().Did(IngressSync)
  }

  function Deploy(pick: Pick, st: Service, spec: ServiceSpec, now: Time, env: Environment): Service
  {
    if st.IsObserved(Running) then st
    else
      var wanted := st.(desired := Some(DesiredState(spec, Deploying, now, now)));
      var choice := pick(spec, env.nodes);
      if choice.None? then
        Unplaced(wanted, PlacementFailed, NoEligibleNode, now)
      else
        var target := FindNode(env.nodes, choice.value);
        if target.None? then wanted  // RuntimeError: the scheduler selected an unknown node
        else DeployTo(wanted, target.value.nodeId, spec, now, env)
  }

  function DeployTo(st: Service, target: NodeId, spec: ServiceSpec, now: Time, env: Environment): Service
  {
    match env.deployReply
    case Refused(error) => Unplaced(st.Did(AgentDeploy(target, false)), Pending, AgentRefused(error), now)
    case Accepted(containerId) => DeployedOn(st.Did(AgentDeploy(target, true)), target, containerId, spec, now)
  }

  function Stop(st: Service, now: Time, env: Environment): Service
  {
    var stopped :=
      if st.placement.Some? && FindNode(env.nodes, st.placement.value.nodeId).Some?
      then st.Did(AgentStop(st.placement.value.nodeId, env.stopOk)) else st;
    StoppedRecord(stopped, now).Did(IngressSync)
  }

  function StoppedRecord(st: Service, now: Time): Service
  {
    var cleared := st.Observe(ObservedState(Stopped, Unknown, None, None, now, 0, None))
                     .(placement := None, pending := None).ResetRestarts();
    if st.desired.None? then cleared
    else cleared.(desired := Some(st.desired.value.(status := Stopped, updatedAt := now)))
  }

  function Restart(st: Service, now: Time, env: Environment): Service
  {
    if st.placement.None? then st  // the stored observation is returned, or ValueError raised
    else
      var node := FindNode(env.nodes, st.placement.value.nodeId);
      if node.None? then st  // ValueError
      else if !env.restartOk then st.Did(AgentRestart(node.value.nodeId, false, false))  // the agent error propagates
      else
        var called := st.Did(AgentRestart(node.value.nodeId, true, false));
        var seen := match st.observed
          case None => called.Observe(ObservedState(Running, Unknown, None, Some(node.value.nodeId), now, 0, None))
          case Some(o) => called.Observe(o.(status := Running, health := Unknown));
        seen.Did(IngressSync)
  }

  function RetryPending(pick: Pick, st: Service, now: Time, env: Environment): Service
  {
    if st.desired.None? then st.(pending := None)
    else Deploy(pick, st, st.desired.value.service, now, env)
  }

  // Records without the in-memory tables and the effects of the last handler, as the store holds them.

  function Bare(st: Service): Service
  {
    st.(cooldownUntil := None, activeRecovery := None, effects := [])
  }

  predicate OnNode(st: Service, nodeId: NodeId)
  {
    st.placement.Some? && st.placement.value.nodeId == nodeId
  }

  /** The stored record after the node-unreachable step for its own placement. */
  function Evacuated(cfg: Settings, pick: Pick, st: Service, at: Time, env: Environment): Service
    requires st.placement.Some?
  {
    Bare(OnUnreachable(cfg, pick, st, st.placement.value, at, env))
  }

  /** The node-unreachable step neither reads nor writes the in-memory tables. */
  lemma EvacuationIgnoresMemory(cfg: Settings, pick: Pick, st: Service, at: Time, env: Environment)
    requires st.placement.Some?
    ensures Bare(OnUnreachable(cfg, pick, st, st.placement.value, at, env)) == Evacuated(cfg, pick, Bare(st), at, env)
  {
    hide FindNode, WithoutNode;
  }

  // Steps and runs.

  datatype Step =
    | CrashStep(crash: CrashReport, env: Environment)
    | HealthStep(health: HealthReport, env: Environment)
    | UnreachableStep(listed: Placement, at: Time, env: Environment)
    | DeployStep(spec: ServiceSpec, at: Time, env: Environment)
    | StopStep(at: Time, env: Environment)
    | RestartStep(at: Time, env: Environment)
    | RetryStep(at: Time, env: Environment)
  {
    predicate IsReport() { CrashStep? || HealthStep? }

    function Time(): Time
    {
      match this
      case CrashStep(r, _) => r.occurredAt
      case HealthStep(r, _) => r.observedAt
      case _ => at
    }
  }

  function Apply(cfg: Settings, pick: Pick, before: Service, step: Step): Service
  {
    var st := before.(effects := []);
    match step
    case CrashStep(r, env) => OnCrash(cfg, pick, st, r, env)
    case HealthStep(r, env) => OnHealth(cfg, pick, st, r, env)
    case UnreachableStep(listed, at, env) => OnUnreachable(cfg, pick, st, listed, at, env)
    case DeployStep(spec, at, env) => Deploy(pick, st, spec, at, env)
    case StopStep(at, env) => Stop(st, at, env)
    case RestartStep(at, env) => Restart(st, at, env)
    case RetryStep(at, env) => RetryPending(pick, st, at, env)
  }

  function Run(cfg: Settings, pick: Pick, st: Service, steps: seq<Step>): Service
    decreases |steps|
  {
    if steps == [] then st
    else Run(cfg, pick, Apply(cfg, pick, st, steps[0]), steps[1..])
  }

  lemma {:induction false} RunAppend(cfg: Settings, pick: Pick, st: Service, first: seq<Step>, second: seq<Step>)
    ensures Run(cfg, pick, st, first + second) == Run(cfg, pick, Run(cfg, pick, st, first), second)
    decreases |first|
  {
    if first == [] {
      assert first + second == second;
    } else {
      assert (first + second)[1..] == first[1..] + second;
      RunAppend(cfg, pick, Apply(cfg, pick, st, first[0]), first[1..], second);
    }
  }
}
