// After a stop, nothing but a new deploy request starts the service again.

module Resurrection {
  import opened Models
  import opened Lifecycle
  import opened StepFacts
  import Scheduler

  /** Nothing runs, nothing waits, and nothing is wanted. */
  predicate Quiet(st: Service)
  {
    && st.placement.None? && st.pending.None? && !st.WantsToRun() && !st.IsObserved(Running)
  }

  /** The step was dispatched from a list that is still true when it takes the lock: the placement that
      handle_node_unreachable listed is the stored one, the pending record that run_once listed still exists. */
  predicate FromCurrentList(st: Service, step: Step)
  {
    && (step.UnreachableStep? ==> st.placement == Some(step.listed))
    && (step.RetryStep? ==> st.pending.Some?)
  }

  /** The scheduler offers this step a node of the table it was given. */
  predicate FindsTarget(pick: Pick, spec: ServiceSpec, candidates: seq<NodeState>, nodes: seq<NodeState>)
  {
    var choice := pick(spec, candidates);
    choice.Some? && FindNode(nodes, choice.value).Some?
  }

  /** The step would look for a node to start the service on, and finds one. */
  predicate LooksForNode(pick: Pick, st: Service, step: Step)
  {
    match step
    case DeployStep(spec, _, env) => FindsTarget(pick, spec, env.nodes, env.nodes)
    case RetryStep(_, env) =>
      st.desired.Some? && FindsTarget(pick, st.desired.value.service, env.nodes, env.nodes)
    case UnreachableStep(listed, _, env) =>
      st.desired.Some? && FindsTarget(pick, st.desired.value.service, WithoutNode(env.nodes, listed.nodeId), env.nodes)
    case _ => false
  }

  lemma StopIsQuiet(st: Service, now: Time, env: Environment)
    ensures Quiet(Stop(st, now, env)) && !StartsWork(Stop(st.(effects := []), now, env).effects)
  {
    assert Stop(st.(effects := []), now, env).effects == [CounterReset, IngressSync]
        || Stop(st.(effects := []), now, env).effects ==
             [AgentStop(st.placement.value.nodeId, env.stopOk), CounterReset, IngressSync];
  }

  lemma QuietDeploy(pick: Pick, st: Service, spec: ServiceSpec, at: Time, env: Environment)
    requires st.effects == [] && !st.IsObserved(Running)
    ensures StartsWork(Deploy(pick, st, spec, at, env).effects) <==> FindsTarget(pick, spec, env.nodes, env.nodes)
  {
    var es := Deploy(pick, st, spec, at, env).effects;
    if FindsTarget(pick, spec, env.nodes, env.nodes) {
      assert es[0].AgentDeploy?;
    }
  }

  /** On a quiet service a step asks an agent to deploy or restart exactly when it is a deploy, a retry or a
      node-unreachable step that finds a node; reports, stop and API restart never do. */
  lemma QuietStep(cfg: Settings, pick: Pick, before: Service, step: Step)
    requires Quiet(before)
    ensures StartsWork(Apply(cfg, pick, before, step).effects) <==> LooksForNode(pick, before, step)
  {
    hide FindNode, WithoutNode, Deploy, MovedTo;
    var st := before.(effects := []);
    match step
    case CrashStep(_, _) =>
    case HealthStep(_, _) =>
    case StopStep(at, env) => StopIsQuiet(before, at, env);
    case RestartStep(_, _) =>
    case DeployStep(spec, at, env) => QuietDeploy(pick, st, spec, at, env);
    case RetryStep(at, env) =>
      if st.desired.Some? { QuietDeploy(pick, st, st.desired.value.service, at, env); }
    case UnreachableStep(listed, at, env) => QuietUnreachable(cfg, pick, st, listed, at, env);
  }

  lemma QuietUnreachable(cfg: Settings, pick: Pick, st: Service, listed: Placement, at: Time, env: Environment)
    requires st.effects == []
    ensures StartsWork(OnUnreachable(cfg, pick, st, listed, at, env).effects) <==>
            st.desired.Some? &&
            FindsTarget(pick, st.desired.value.service, WithoutNode(env.nodes, listed.nodeId), env.nodes)
  {
    hide WithoutNode, MovedTo;
    var out := OnUnreachable(cfg, pick, st, listed, at, env);
    if st.desired.Some? {
      var candidates := WithoutNode(env.nodes, listed.nodeId);
      if FindsTarget(pick, st.desired.value.service, candidates, env.nodes) {
        var target := FindNode(env.nodes, pick(st.desired.value.service, candidates).value).value.nodeId;
        if env.deployReply.Accepted? {
          MoveFacts(cfg, st.Did(AgentDeploy(target, true)), target, env.deployReply.containerId, at);
        }
        assert out.effects[0] == AgentDeploy(target, env.deployReply.Accepted?);
      } else {
        assert out.effects == [IngressSync];
      }
    }
  }

  lemma QuietStays(cfg: Settings, pick: Pick, st: Service, step: Step)
    requires Quiet(st) && !step.DeployStep? && FromCurrentList(st, step)
    ensures Quiet(Apply(cfg, pick, st, step)) && !StartsWork(Apply(cfg, pick, st, step).effects)
  {
    assert step.StopStep? ==> Quiet(Stop(st.(effects := []), step.at, step.env)) by {
      if step.StopStep? { StopIsQuiet(st.(effects := []), step.at, step.env); }
    }
    QuietStep(cfg, pick, st, step);
  }

  /** No step of the run is a deploy request, and every list a step came from was current. */
  predicate NoNewRequest(cfg: Settings, pick: Pick, st: Service, steps: seq<Step>)
    decreases |steps|
  {
    steps == [] ||
    (&& !steps[0].DeployStep? && FromCurrentList(st, steps[0])
     && NoNewRequest(cfg, pick, Apply(cfg, pick, st, steps[0]), steps[1..]))
  }

  ghost predicate NeverStartsWork(cfg: Settings, pick: Pick, st: Service, steps: seq<Step>)
    decreases |steps|
  {
    steps == [] ||
    (&& !StartsWork(Apply(cfg, pick, st, steps[0]).effects)
     && NeverStartsWork(cfg, pick, Apply(cfg, pick, st, steps[0]), steps[1..]))
  }

  lemma {:induction false} QuietRun(cfg: Settings, pick: Pick, st: Service, steps: seq<Step>)
    requires Quiet(st) && NoNewRequest(cfg, pick, st, steps)
    ensures NeverStartsWork(cfg, pick, st, steps) && Quiet(Run(cfg, pick, st, steps))
    decreases |steps|
  {
    hide Apply;
    if steps != [] {
      QuietStays(cfg, pick, st, steps[0]);
      QuietRun(cfg, pick, Apply(cfg, pick, st, steps[0]), steps[1..]);
    }
  }

  /** After `stop`, in every continuation without a deploy request and with current lists, no agent is ever asked to
      deploy or restart the service, and it stays stopped. */
  lemma NoResurrection(cfg: Settings, pick: Pick, st: Service, now: Time, env: Environment, steps: seq<Step>)
    requires NoNewRequest(cfg, pick, Apply(cfg, pick, st, StopStep(now, env)), steps)
    ensures NeverStartsWork(cfg, pick, st, [StopStep(now, env)] + steps)
    ensures Quiet(Run(cfg, pick, st, [StopStep(now, env)] + steps))
  {
    var stopped := Apply(cfg, pick, st, StopStep(now, env));
    StopIsQuiet(st.(effects := []), now, env);
    assert stopped == Stop(st.(effects := []), now, env);
    hide Apply;
    var all := [StopStep(now, env)] + steps;
    assert all[0] == StopStep(now, env) && all[1..] == steps;
    QuietRun(cfg, pick, stopped, steps);
  }

  /** Why the pending list must be current: a service that waits for a node is listed, then stopped, then a node
      appears, and the retry from that list starts it. */
  lemma OutdatedPendingListResurrects(cfg: Settings, node: NodeState, spec: ServiceSpec)
    requires Scheduler.Eligible(spec, node)
    ensures var without := Environment([], [], Accepted("c1"), true, true);
            var with := Environment([node], [node], Accepted("c1"), true, true);
            var waiting := Apply(cfg, LEAST_LOAD, Fresh(spec.serviceId), DeployStep(spec, 0, without));
            var stopped := Apply(cfg, LEAST_LOAD, waiting, StopStep(1, with));
            && waiting.pending.Some? && Quiet(stopped)
            && StartsWork(Apply(cfg, LEAST_LOAD, stopped, RetryStep(2, with)).effects)
  {
    var without := Environment([], [], Accepted("c1"), true, true);
    var with := Environment([node], [node], Accepted("c1"), true, true);
    OnlyNodeChosen(spec, node);
    var waiting := Apply(cfg, LEAST_LOAD, Fresh(spec.serviceId), DeployStep(spec, 0, without));
    assert waiting.desired == Some(DesiredState(spec, Deploying, 0, 0)) && waiting.pending.Some?;
    var stopped := Apply(cfg, LEAST_LOAD, waiting, StopStep(1, with));
    StopIsQuiet(waiting.(effects := []), 1, with);
    assert stopped.desired.value.service == spec;
    hide Apply;
    QuietStep(cfg, LEAST_LOAD, stopped, RetryStep(2, with));
  }

  /** Why the placement list must be current: a service is listed on its node, then stopped, and the node-unreachable
      handler for that entry starts it on another node. */
  lemma OutdatedPlacementListResurrects(cfg: Settings, home: NodeState, other: NodeState, spec: ServiceSpec)
    requires Scheduler.Eligible(spec, home) && Scheduler.Eligible(spec, other) && home.nodeId != other.nodeId
    ensures var before := Environment([home], [home], Accepted("c1"), true, true);
            var after := Environment([other], [other], Accepted("c2"), true, true);
            var deployed := Apply(cfg, LEAST_LOAD, Fresh(spec.serviceId), DeployStep(spec, 0, before));
            var stopped := Apply(cfg, LEAST_LOAD, deployed, StopStep(1, after));
            && deployed.placement.Some? && deployed.placement.value.nodeId == home.nodeId && Quiet(stopped)
            && StartsWork(Apply(cfg, LEAST_LOAD, stopped, UnreachableStep(deployed.placement.value, 2, after)).effects)
  {
    var before := Environment([home], [home], Accepted("c1"), true, true);
    var after := Environment([other], [other], Accepted("c2"), true, true);
    OnlyNodeChosen(spec, home);
    OnlyNodeChosen(spec, other);
    var deployed := Apply(cfg, LEAST_LOAD, Fresh(spec.serviceId), DeployStep(spec, 0, before));
    assert deployed.desired == Some(DesiredState(spec, Running, 0, 0));
    assert deployed.placement == Some(Placement(spec.serviceId, home.nodeId, 0));
    var stopped := Apply(cfg, LEAST_LOAD, deployed, StopStep(1, after));
    StopIsQuiet(deployed.(effects := []), 1, after);
    assert stopped.desired.value.service == spec;
    assert WithoutNode([other], home.nodeId) == [other];
    hide Apply;
    QuietStep(cfg, LEAST_LOAD, stopped, UnreachableStep(deployed.placement.value, 2, after));
  }

  lemma OnlyNodeChosen(spec: ServiceSpec, node: NodeState)
    requires Scheduler.Eligible(spec, node)
    ensures Scheduler.Choose(spec, [node]) == Some(node.nodeId)
    ensures FindNode([node], node.nodeId).Some?
  {
    Scheduler.ChoiceIsLexicographicMinimum(spec, [node]);
    assert node in [node];
  }
}
