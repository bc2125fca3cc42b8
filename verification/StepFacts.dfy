// What one step can and cannot do, in terms of its visible effects.  The run theorems use these facts
// and not the handlers' bodies.

module StepFacts {
  import opened Models
  import opened Lifecycle

  /** The step completed a recovery: a restart in place or a reschedule. */
  ghost predicate Recovers(es: seq<Effect>) { exists i :: 0 <= i < |es| && es[i].Recovered? }

  /** Self-healing asked an agent for a restart. */
  ghost predicate AsksRestart(es: seq<Effect>) { exists i :: 0 <= i < |es| && es[i].AgentRestart? && es[i].healing }

  /** Self-healing asked an agent for a restart and the agent did it. */
  ghost predicate RestartSucceeded(es: seq<Effect>)
  {
    exists i :: 0 <= i < |es| && es[i].AgentRestart? && es[i].healing && es[i].ok
  }

  /** Some agent was asked to deploy or restart the service. */
  ghost predicate StartsWork(es: seq<Effect>)
  {
    exists i :: 0 <= i < |es| && (es[i].AgentDeploy? || es[i].AgentRestart?)
  }

  predicate Resets(es: seq<Effect>) { CounterReset in es }

  predicate Syncs(es: seq<Effect>) { IngressSync in es }

  predicate HealthyReport(step: Step) { step.HealthStep? && step.health.healthy }

  /** A report of trouble; when it has any effect, it was a recovery attempt. */
  predicate TroubleReport(step: Step) { step.IsReport() && !HealthyReport(step) }

  ghost predicate Attempts(cfg: Settings, pick: Pick, st: Service, step: Step)
  {
    TroubleReport(step) && Apply(cfg, pick, st, step).effects != []
  }

  /** Steps that never replace the startup grace by a fresh observation without a recovery. */
  predicate KeepsGrace(step: Step)
  {
    TroubleReport(step) || step.UnreachableStep? || step.RestartStep?
  }

  function Grace(st: Service): Option<Time>
  {
    if st.observed.None? then None else st.observed.value.startupGraceUntil
  }

  /** How a recovery leaves the service, and how anything else leaves it. */
  ghost predicate RecoveryShape(cfg: Settings, st: Service, at: Time, out: Service)
  {
    && (Recovers(out.effects) ==>
          && out.generation == st.generation + 1
          && out.IsObserved(Running)
          && Grace(out) == Some(at + cfg.startupGrace))
    && (!Recovers(out.effects) ==>
          && out.generation == st.generation
          && (st.observed.Some? ==> out.observed.Some? && Grace(out) == Grace(st)))
  }

  /** Counter and placement change only together, through a reset. */
  ghost predicate CounterShape(st: Service, out: Service)
  {
    && (Resets(out.effects) ==> out.restarts == 0)
    && (!Resets(out.effects) ==> out.restarts >= st.restarts && out.placement == st.placement)
  }

  lemma StepKeepsId(cfg: Settings, pick: Pick, before: Service, step: Step)
    ensures Apply(cfg, pick, before, step).id == before.id
  {
    hide FindNode, WithoutNode, InStartupGrace, InCooldown, ReportIsCurrent;
    match step
    case CrashStep(_, _) =>
    case HealthStep(_, _) =>
    case UnreachableStep(_, _, _) =>
    case DeployStep(_, _, _) =>
    case StopStep(_, _) =>
    case RestartStep(_, _) =>
    case RetryStep(_, _) =>
  }

  lemma RestartFacts(cfg: Settings, st: Service, nodeId: NodeId, at: Time, env: Environment)
    requires st.effects == [] && st.observed.Some?
    ensures var out := RestartSameNode(cfg, st, nodeId, at, env);
            && RecoveryShape(cfg, st, at, out)
            && out.placement == st.placement && out.restarts == st.restarts
            && out.cooldownUntil == Some(at + CooldownLength(cfg))
            && AsksRestart(out.effects) && !Resets(out.effects)
            && (Recovers(out.effects) <==> env.restartOk)
            && (RestartSucceeded(out.effects) <==> env.restartOk)
            && |out.effects| == 2 && !out.effects[1].AgentRestart?
  {
    var out := RestartSameNode(cfg, st, nodeId, at, env);
    assert |out.effects| == 2 && out.effects[0] == AgentRestart(nodeId, env.restartOk, true);
    assert out.effects[1].Recovered? == env.restartOk;
  }

  lemma GiveUpFacts(st: Service, reason: PendingReason, status: Status, node: NodeId, at: Time)
    requires status != Running
    ensures var out := GiveUp(st, reason, status, node, at);
            && out.generation == st.generation && out.observed.Some?
            && (st.observed.Some? ==> Grace(out) == Grace(st))
            && out.placement == st.placement && out.restarts == st.restarts
            && out.effects == st.effects + [IngressSync]
            && out.IsObserved(status) && out.pending.Some?
            && out.desired == st.desired
  {
  }

  lemma MoveFacts(cfg: Settings, st: Service, target: NodeId, containerId: string, at: Time)
    ensures var out := MovedTo(cfg, st, target, containerId, at);
            && out.generation == st.generation + 1 && out.IsObserved(Running)
            && Grace(out) == Some(at + cfg.startupGrace)
            && out.placement == Some(Placement(st.id, target, at)) && out.restarts == 0
            && out.effects == st.effects + [CounterReset] && out.pending.None?
            && out.desired == st.desired && out.cooldownUntil == st.cooldownUntil
  {
  }

  /** The reschedule procedure finds a target and its agent accepts the deployment. */
  ghost predicate RescheduleSucceeds(pick: Pick, st: Service, current: NodeId, env: Environment)
    requires st.desired.Some?
  {
    var choice := pick(st.desired.value.service, WithoutNode(env.nodesAgain, current));
    choice.Some? && FindNode(env.nodesAgain, choice.value).Some? && env.deployReply.Accepted?
  }

  lemma RescheduleMoves(cfg: Settings, pick: Pick, st: Service, current: NodeId, at: Time, env: Environment)
    requires st.effects == [] && st.desired.Some? && RescheduleSucceeds(pick, st, current, env)
    ensures var out := RescheduleExhausted(cfg, pick, st, current, at, env);
            var target := pick(st.desired.value.service, WithoutNode(env.nodesAgain, current)).value;
            && RecoveryShape(cfg, st, at, out) && Recovers(out.effects)
            && out.placement == Some(Placement(st.id, target, at)) && out.restarts == 0
            && out.pending.None? && out.desired == st.desired
            && out.cooldownUntil == Some(at + CooldownLength(cfg))
            && !AsksRestart(out.effects) && Resets(out.effects)
  {
    hide MovedTo, WithoutNode;
    var out := RescheduleExhausted(cfg, pick, st, current, at, env);
    var choice := pick(st.desired.value.service, WithoutNode(env.nodesAgain, current));
    var target := FindNode(env.nodesAgain, choice.value).value.nodeId;
    var deployed := st.Did(AgentDeploy(target, true));
    var record := Recovered(RecoveryRecord(st.id, RescheduledAfterRestarts, current, target, at));
    if FindNode(env.nodesAgain, current).None? {
      MoveFacts(cfg, deployed, target, env.deployReply.containerId, at);
      assert out.effects == [AgentDeploy(target, true), CounterReset, record, IngressSync];
      assert out.effects[2].Recovered?;
    } else {
      MoveFacts(cfg, deployed.Did(AgentStop(current, env.stopOk)), target, env.deployReply.containerId, at);
      assert out.effects == [AgentDeploy(target, true), AgentStop(current, env.stopOk), CounterReset, record,
                             IngressSync];
      assert out.effects[3].Recovered?;
    }
  }

  lemma RescheduleFails(cfg: Settings, pick: Pick, st: Service, current: NodeId, at: Time, env: Environment)
    requires st.effects == [] && st.observed.Some? && st.desired.Some? && !RescheduleSucceeds(pick, st, current, env)
    ensures var out := RescheduleExhausted(cfg, pick, st, current, at, env);
            && RecoveryShape(cfg, st, at, out) && !Recovers(out.effects)
            && out.placement == st.placement && out.restarts == st.restarts
            && out.pending.Some? && out.desired == st.desired
            && out.cooldownUntil == Some(at + CooldownLength(cfg))
            && !AsksRestart(out.effects) && !Resets(out.effects) && out.effects != []
  {
    hide GiveUp, WithoutNode;
    var out := RescheduleExhausted(cfg, pick, st, current, at, env);
    var choice := pick(st.desired.value.service, WithoutNode(env.nodesAgain, current));
    if choice.None? {
      GiveUpFacts(st, RestartExhaustedNoCandidate, Pending, current, at);
      assert out.effects == [IngressSync];
    } else if FindNode(env.nodesAgain, choice.value).None? {
      GiveUpFacts(st, RestartExhaustedTargetGone, Pending, current, at);
      assert out.effects == [IngressSync];
    } else {
      var target := FindNode(env.nodesAgain, choice.value).value.nodeId;
      GiveUpFacts(st.Did(AgentDeploy(target, false)), RestartExhaustedDeployFailed, Failed, current, at);
      assert out.effects == [AgentDeploy(target, false), IngressSync];
    }
  }

  lemma RescheduleFacts(cfg: Settings, pick: Pick, st: Service, current: NodeId, at: Time, env: Environment)
    requires st.effects == [] && st.observed.Some? && st.desired.Some?
    ensures var out := RescheduleExhausted(cfg, pick, st, current, at, env);
            && RecoveryShape(cfg, st, at, out) && CounterShape(st, out)
            && out.cooldownUntil == Some(at + CooldownLength(cfg))
            && !AsksRestart(out.effects) && !RestartSucceeded(out.effects) && out.effects != []
            && (Resets(out.effects) <==> Recovers(out.effects))
            && (!Recovers(out.effects) ==> out.restarts == st.restarts)
  {
    hide RescheduleExhausted;
    if RescheduleSucceeds(pick, st, current, env) {
      RescheduleMoves(cfg, pick, st, current, at, env);
    } else {
      RescheduleFails(cfg, pick, st, current, at, env);
    }
  }

  lemma UnreachableFacts(cfg: Settings, pick: Pick, st: Service, listed: Placement, at: Time, env: Environment)
    requires st.effects == []
    ensures var out := OnUnreachable(cfg, pick, st, listed, at, env);
            && RecoveryShape(cfg, st, at, out) && CounterShape(st, out)
            && out.cooldownUntil == st.cooldownUntil
            && !AsksRestart(out.effects)
            && (Resets(out.effects) <==> Recovers(out.effects))
            && (!Recovers(out.effects) ==> out.restarts == st.restarts)
  {
    hide MovedTo;
    var out := OnUnreachable(cfg, pick, st, listed, at, env);
    if st.desired.Some? {
      var choice := pick(st.desired.value.service, WithoutNode(env.nodes, listed.nodeId));
      if choice.None? || FindNode(env.nodes, choice.value).None? {
        assert out.effects == [IngressSync];
      } else {
        var target := FindNode(env.nodes, choice.value).value.nodeId;
        match env.deployReply
        case Refused(_) =>
          assert out.effects == [AgentDeploy(target, false), IngressSync];
        case Accepted(containerId) =>
          MoveFacts(cfg, st.Did(AgentDeploy(target, true)), target, containerId, at);
          var record := Recovered(RecoveryRecord(st.id, RescheduledFromUnreachable, listed.nodeId, target, at));
          assert out.effects == [AgentDeploy(target, true), CounterReset, record, IngressSync];
          assert out.effects[2].Recovered?;
      }
    }
  }

  /** What a report of trouble at time `at` leaves behind: it was either ignored or an attempt. */
  ghost predicate TroubleShape(cfg: Settings, before: Service, at: Time, byHealth: bool, out: Service)
  {
    && RecoveryShape(cfg, before, at, out) && CounterShape(before, out)
    && (Resets(out.effects) ==> Recovers(out.effects))
    && (out.effects == [] ==> out.cooldownUntil == before.cooldownUntil && out.restarts == before.restarts
                              && out.pending == before.pending)
    && (out.effects != [] ==>
          && before.observed.Some? && !InStartupGrace(before.observed.value, at)
          && out.cooldownUntil == Some(at + CooldownLength(cfg))
          && (byHealth ==> !InCooldown(before, at)))
    && (AsksRestart(out.effects) ==> out.restarts == before.restarts + 1 <= cfg.maxRestartAttempts
                                     && !Resets(out.effects))
    && (Recovers(out.effects) && !Resets(out.effects) <==> RestartSucceeded(out.effects))
    && (AsksRestart(out.effects) ==> |out.effects| == 2 && !out.effects[1].AgentRestart?)
  }

  lemma PlainEffects()
    ensures !Recovers([]) && !AsksRestart([]) && !RestartSucceeded([]) && !Resets([])
    ensures var es := [IngressSync]; !Recovers(es) && !AsksRestart(es) && !RestartSucceeded(es) && !Resets(es)
  {
  }

  lemma CrashTrouble(cfg: Settings, pick: Pick, st: Service, r: CrashReport, env: Environment)
    requires st.effects == []
    ensures TroubleShape(cfg, st, r.occurredAt, false, OnCrash(cfg, pick, st, r, env))
  {
    hide RestartSameNode, RescheduleExhausted, FindNode;
    hide Recovers, AsksRestart, RestartSucceeded, Resets;
    PlainEffects();
    if ReportIsCurrent(st, r.nodeId, r.generation) {
      var current := st.placement.value.nodeId;
      var marked := st.(activeRecovery := Some(st.generation), restarts := st.restarts + 1)
                      .Observe(st.observed.value.(health := IsUnhealthy, lastReportedAt := r.occurredAt));
      RestartFacts(cfg, marked, current, r.occurredAt, env);
      RescheduleFacts(cfg, pick, marked, current, r.occurredAt, env);
    }
  }

  lemma UnhealthyTrouble(cfg: Settings, pick: Pick, st: Service, r: HealthReport, env: Environment)
    requires st.effects == [] && !r.healthy
    ensures TroubleShape(cfg, st, r.observedAt, true, OnHealth(cfg, pick, st, r, env))
  {
    hide RestartSameNode, RescheduleExhausted, GiveUp, FindNode;
    hide Recovers, AsksRestart, RestartSucceeded, Resets;
    PlainEffects();
    if ReportIsCurrent(st, r.nodeId, r.generation) {
      var current := st.placement.value.nodeId;
      var active := st.(activeRecovery := Some(st.generation))
                      .Observe(st.observed.value.(health := IsUnhealthy, lastReportedAt := r.observedAt));
      var counted := active.(restarts := st.restarts + 1);
      GiveUpFacts(active, CurrentNodeMissing, Pending, current, r.observedAt);
      assert active.effects + [IngressSync] == [IngressSync];
      RestartFacts(cfg, counted, current, r.observedAt, env);
      RescheduleFacts(cfg, pick, counted, current, r.observedAt, env);
    }
  }

  lemma TroubleFacts(cfg: Settings, pick: Pick, before: Service, step: Step)
    requires TroubleReport(step)
    ensures TroubleShape(cfg, before, step.Time(), step.HealthStep?, Apply(cfg, pick, before, step))
  {
    hide OnCrash, OnHealth;
    var st := before.(effects := []);
    match step
    case CrashStep(r, env) => CrashTrouble(cfg, pick, st, r, env);
    case HealthStep(r, env) => UnhealthyTrouble(cfg, pick, st, r, env);
  }

  /** A step that neither recovers nor asks for a restart. */
  ghost predicate Calm(st: Service, out: Service)
  {
    && CounterShape(st, out) && !Recovers(out.effects) && !AsksRestart(out.effects)
    && out.generation == st.generation
    && (!Resets(out.effects) ==> out.restarts == st.restarts)
  }

  lemma DeployFacts(pick: Pick, st: Service, spec: ServiceSpec, at: Time, env: Environment)
    requires st.effects == []
    ensures Calm(st, Deploy(pick, st, spec, at, env))
    ensures Deploy(pick, st, spec, at, env).cooldownUntil == st.cooldownUntil
  {
  }

  lemma HealthyFacts(cfg: Settings, pick: Pick, st: Service, r: HealthReport, env: Environment)
    requires st.effects == [] && r.healthy
    ensures Calm(st, OnHealth(cfg, pick, st, r, env))
  {
  }

  lemma StopFacts(st: Service, at: Time, env: Environment)
    requires st.effects == []
    ensures Calm(st, Stop(st, at, env)) && Stop(st, at, env).cooldownUntil == st.cooldownUntil
  {
    hide FindNode;
  }

  lemma ApiRestartFacts(cfg: Settings, st: Service, at: Time, env: Environment)
    requires st.effects == []
    ensures Calm(st, Restart(st, at, env)) && RecoveryShape(cfg, st, at, Restart(st, at, env))
    ensures Restart(st, at, env).cooldownUntil == st.cooldownUntil
  {
    hide FindNode;
  }

  /** Stop, API restart, deploy, pending retry, node-unreachable and healthy reports. */
  lemma OtherFacts(cfg: Settings, pick: Pick, before: Service, step: Step)
    requires !TroubleReport(step)
    ensures var out := Apply(cfg, pick, before, step);
            && CounterShape(before, out)
            && (!step.UnreachableStep? ==> !Recovers(out.effects) && out.generation == before.generation)
            && (KeepsGrace(step) ==> RecoveryShape(cfg, before, step.Time(), out))
            && !AsksRestart(out.effects)
            && (Recovers(out.effects) ==> Resets(out.effects))
            && (!HealthyReport(step) ==> out.cooldownUntil == before.cooldownUntil)
            && (!Resets(out.effects) ==> out.restarts == before.restarts)
  {
    hide OnUnreachable, OnHealth, Deploy, Stop, Restart, Recovers, AsksRestart, Resets;
    var st := before.(effects := []);
    match step
    case UnreachableStep(listed, at, env) => UnreachableFacts(cfg, pick, st, listed, at, env);
    case HealthStep(r, env) => HealthyFacts(cfg, pick, st, r, env);
    case DeployStep(spec, at, env) => DeployFacts(pick, st, spec, at, env);
    case StopStep(at, env) => StopFacts(st, at, env);
    case RestartStep(at, env) => ApiRestartFacts(cfg, st, at, env);
    case RetryStep(at, env) => RetryFacts(pick, st, at, env);
  }

  lemma RetryFacts(pick: Pick, st: Service, at: Time, env: Environment)
    requires st.effects == []
    ensures Calm(st, RetryPending(pick, st, at, env))
    ensures RetryPending(pick, st, at, env).cooldownUntil == st.cooldownUntil
  {
    hide Deploy;
    if st.desired.Some? { DeployFacts(pick, st, st.desired.value.service, at, env); }
  }

  /** An attempt that counts: every attempt, except a health report whose node left the node table. */
  ghost predicate CountedAttempt(cfg: Settings, pick: Pick, st: Service, step: Step)
  {
    && Attempts(cfg, pick, st, step)
    && (step.HealthStep? ==> st.placement.Some? && FindNode(step.env.nodes, st.placement.value.nodeId).Some?)
  }

  /** What a counted attempt with the given counter does: it restarts in place exactly while the budget lasts and the
      node is known; otherwise it is a reschedule, which either resets the counter or raises it. */
  ghost predicate AttemptShape(cfg: Settings, pick: Pick, before: Service, env: Environment, out: Service)
  {
    && before.placement.Some? && before.desired.Some?
    && var current := before.placement.value.nodeId;
       && (AsksRestart(out.effects) <==> before.restarts < cfg.maxRestartAttempts && FindNode(env.nodes, current).Some?)
       && (!Resets(out.effects) ==> out.restarts == before.restarts + 1)
       && (!AsksRestart(out.effects) ==> (RescheduleSucceeds(pick, before, current, env) <==> Resets(out.effects)))
       && (Resets(out.effects) ==>
             && out.placement.Some? && out.IsObserved(Running) && out.pending.None?
             && Some(out.placement.value.nodeId) == pick(before.desired.value.service,
                                                         WithoutNode(env.nodesAgain, current)))
  }

  lemma RescheduleAttempt(cfg: Settings, pick: Pick, st: Service, current: NodeId, at: Time, env: Environment)
    requires st.effects == [] && st.desired.Some? && st.observed.Some?
    ensures var out := RescheduleExhausted(cfg, pick, st, current, at, env);
            && !AsksRestart(out.effects)
            && (RescheduleSucceeds(pick, st, current, env) <==> Resets(out.effects))
            && (!Resets(out.effects) ==> out.restarts == st.restarts)
            && (Resets(out.effects) ==>
                  && out.placement.Some? && out.IsObserved(Running) && out.pending.None?
                  && Some(out.placement.value.nodeId) == pick(st.desired.value.service,
                                                              WithoutNode(env.nodesAgain, current)))
  {
    hide RescheduleExhausted, WithoutNode, FindNode, AsksRestart;
    if RescheduleSucceeds(pick, st, current, env) {
      RescheduleMoves(cfg, pick, st, current, at, env);
    } else {
      RescheduleFails(cfg, pick, st, current, at, env);
    }
  }

  lemma CrashAttempt(cfg: Settings, pick: Pick, st: Service, r: CrashReport, env: Environment)
    requires st.effects == [] && OnCrash(cfg, pick, st, r, env).effects != []
    ensures AttemptShape(cfg, pick, st, env, OnCrash(cfg, pick, st, r, env))
  {
    hide RestartSameNode, RescheduleExhausted, FindNode, WithoutNode, AsksRestart, Resets;
    var current := st.placement.value.nodeId;
    var marked := st.(activeRecovery := Some(st.generation), restarts := st.restarts + 1)
                    .Observe(st.observed.value.(health := IsUnhealthy, lastReportedAt := r.occurredAt));
    RestartFacts(cfg, marked, current, r.occurredAt, env);
    RescheduleAttempt(cfg, pick, marked, current, r.occurredAt, env);
  }

  lemma HealthAttempt(cfg: Settings, pick: Pick, st: Service, r: HealthReport, env: Environment)
    requires st.effects == [] && !r.healthy && OnHealth(cfg, pick, st, r, env).effects != []
    ensures st.placement.Some? && st.desired.Some?
    ensures var out := OnHealth(cfg, pick, st, r, env);
            if FindNode(env.nodes, st.placement.value.nodeId).Some? then AttemptShape(cfg, pick, st, env, out)
            else out.restarts == st.restarts && !AsksRestart(out.effects) && !Resets(out.effects)
  {
    hide RestartSameNode, RescheduleExhausted, GiveUp, FindNode, WithoutNode;
    var current := st.placement.value.nodeId;
    var active := st.(activeRecovery := Some(st.generation))
                    .Observe(st.observed.value.(health := IsUnhealthy, lastReportedAt := r.observedAt));
    var counted := active.(restarts := st.restarts + 1);
    GiveUpFacts(active, CurrentNodeMissing, Pending, current, r.observedAt);
    RestartFacts(cfg, counted, current, r.observedAt, env);
    RescheduleAttempt(cfg, pick, counted, current, r.observedAt, env);
  }

  lemma AttemptFacts(cfg: Settings, pick: Pick, before: Service, step: Step)
    requires Attempts(cfg, pick, before, step)
    ensures before.placement.Some? && before.desired.Some?
    ensures var out := Apply(cfg, pick, before, step);
            if CountedAttempt(cfg, pick, before, step) then AttemptShape(cfg, pick, before, step.env, out)
            else out.restarts == before.restarts && !AsksRestart(out.effects) && !Resets(out.effects)
  {
    hide OnCrash, OnHealth, AsksRestart, Resets, FindNode, WithoutNode;
    var st := before.(effects := []);
    match step
    case CrashStep(r, env) => CrashAttempt(cfg, pick, st, r, env);
    case HealthStep(r, env) => HealthAttempt(cfg, pick, st, r, env);
  }

  /** The facts of every step. */
  lemma StepFactsHold(cfg: Settings, pick: Pick, before: Service, step: Step)
    ensures var out := Apply(cfg, pick, before, step);
            && CounterShape(before, out)
            && out.generation == before.generation + (if Recovers(out.effects) then 1 else 0)
            && (AsksRestart(out.effects) ==> TroubleReport(step))
            && (Recovers(out.effects) ==> TroubleReport(step) || step.UnreachableStep?)
            && (Recovers(out.effects) && !Resets(out.effects) <==> RestartSucceeded(out.effects))
            && (KeepsGrace(step) ==> RecoveryShape(cfg, before, step.Time(), out))
            && (!HealthyReport(step) && !Attempts(cfg, pick, before, step) ==>
              out.cooldownUntil == before.cooldownUntil)
            && (!TroubleReport(step) && !Resets(out.effects) ==> out.restarts == before.restarts)
  {
    hide Apply;
    if TroubleReport(step) {
      TroubleFacts(cfg, pick, before, step);
    } else {
      OtherFacts(cfg, pick, before, step);
    }
  }
}
