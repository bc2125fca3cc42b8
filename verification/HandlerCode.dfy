// The handlers of controller/self_healing.py and controller/service_manager.py as coroutines, call by call, and what
// each of them amounts to when it runs alone: the function of module Lifecycle.

module HandlerCode {
  import opened Models
  import opened Lifecycle
  import opened Coroutines
  import opened Agents

  /** The environment a handler meets: what its reads of the node table return, and the outcome of its agent calls. */
  function EnvOf(seen: seq<NodeList>, o: Outcomes): Environment
  {
    Environment(NthRead(seen, 0), NthRead(seen, 1), o.deployReply, o.restartOk, o.stopOk)
  }

  function NthRead(seen: seq<NodeList>, i: nat): NodeList { if i < |seen| then seen[i] else [] }

  function PutGivenUp(observed: Option<ObservedState>, status: Status, node: NodeId, at: Time): Write
  {
    match observed
    case Some(o) => PutObserved(o.(status := status, health := IsUnhealthy, lastReportedAt := at))
    case None => PutObserved(ObservedState(status, IsUnhealthy, None, Some(node), at, 0, None))
  }

  function CoolingDown(cfg: Settings, at: Time): Write { PutCooldown(at + CooldownLength(cfg)) }

  /** A failing recovery of a report handler; `next` is what the handler does afterwards. */
  function GiveUpAndCoolDownCode(cfg: Settings, observed: Option<ObservedState>, reason: PendingReason, status: Status,
                                 node: NodeId, at: Time, next: Code): Code
  {
    Do(PutPending(reason, at),
    Do(PutGivenUp(observed, status, node, at),
    Do(CoolingDown(cfg, at),
    Do(Call(IngressSync), next))))
  }

  lemma GiveUpAndCoolDownMeans(cfg: Settings, reason: PendingReason, status: Status, node: NodeId, at: Time, next: Code,
                               st: Service, seen: seq<NodeList>, out: Service)
    requires Ends(GiveUpAndCoolDownCode(cfg, st.observed, reason, status, node, at, next), st, seen, out)
    ensures Ends(next, GiveUp(st, reason, status, node, at).CoolDown(cfg, at), seen, out)
  {
    hide Ends;
    var c := Follow(Config(GiveUpAndCoolDownCode(cfg, st.observed, reason, status, node, at, next), st), seen, out);
    c := Follow(c, seen, out);
    c := Follow(c, seen, out);
    c := Follow(c, seen, out);
  }

  function RestartCode(cfg: Settings, nodeId: NodeId, at: Time, ok: bool, next: Code): Code
  {
    GetObserved(current =>
    Do(Call(AgentRestart(nodeId, ok, true)),
    if !ok then
      GiveUpAndCoolDownCode(cfg, current, RestartFailed, Failed, nodeId, at, next)
    else
      IncrementGeneration((generation: nat) =>
      GetObserved(observed =>
      PutRestarted(cfg, observed, generation, at,
      Do(AddRecord(RestartedInPlace, nodeId, nodeId, at),
      Do(CoolingDown(cfg, at), next)))))))
  }

  function PutRestarted(cfg: Settings, observed: Option<ObservedState>, generation: nat, at: Time, next: Code): Code
  {
    match observed
    case Some(o) => Do(PutObserved(o.(health := Unknown, status := Running, lastReportedAt := at,
                                      generation := generation,
                                      startupGraceUntil := Some(at + cfg.startupGrace))), next)
    case None => next
  }

  lemma RestartMeans(cfg: Settings, nodeId: NodeId, at: Time, env: Environment, next: Code,
                     st: Service, seen: seq<NodeList>, out: Service)
    requires Ends(RestartCode(cfg, nodeId, at, env.restartOk, next), st, seen, out)
    ensures Ends(next, RestartSameNode(cfg, st, nodeId, at, env), seen, out)
  {
    hide Ends, GiveUp, GiveUpAndCoolDownCode;
    var c := Follow(Config(RestartCode(cfg, nodeId, at, env.restartOk, next), st), seen, out);
    c := Follow(c, seen, out);
    if !env.restartOk {
      GiveUpAndCoolDownMeans(cfg, RestartFailed, Failed, nodeId, at, next, c.st, seen, out);
    } else {
      c := Follow(c, seen, out);
      c := Follow(c, seen, out);
      if st.observed.Some? { c := Follow(c, seen, out); }
      c := Follow(c, seen, out);
      c := Follow(c, seen, out);
    }
  }

  function RescheduleCode(cfg: Settings, pick: Pick, current: NodeId, at: Time, o: Outcomes, next: Code): Code
  {
    GetDesired((desired: Option<DesiredState>) =>
    if desired.None? then next
    else
      GetObserved(observed =>
      ListNodes(nodes => RescheduleOn(cfg, pick, desired.value.service, observed, current, nodes, at, o, next))))
  }

  function RescheduleOn(cfg: Settings, pick: Pick, spec: ServiceSpec, observed: Option<ObservedState>, current: NodeId,
                        nodes: NodeList, at: Time, o: Outcomes, next: Code): Code
  {
    var choice := pick(spec, WithoutNode(nodes, current));
    if choice.None? then
      GiveUpAndCoolDownCode(cfg, observed, RestartExhaustedNoCandidate, Pending, current, at, next)
    else
      var target := FindNode(nodes, choice.value);
      if target.None? then
        GiveUpAndCoolDownCode(cfg, observed, RestartExhaustedTargetGone, Pending, current, at, next)
      else
        Do(Call(AgentDeploy(target.value.nodeId, o.deployReply.Accepted?)),
        if o.deployReply.Refused? then
          GiveUpAndCoolDownCode(cfg, observed, RestartExhaustedDeployFailed, Failed, current, at, next)
        else
          var move := MoveAfterRestartsCode(cfg, current, target.value.nodeId, o.deployReply.containerId, at, next);
          if FindNode(nodes, current).None? then move else Do(Call(AgentStop(current, o.stopOk)), move))
  }

  function PutMoved(cfg: Settings, target: NodeId, containerId: string, generation: nat, at: Time): Write
  {
    PutObserved(ObservedState(Running, Unknown, Some(containerId), Some(target), at, generation,
                              Some(at + cfg.startupGrace)))
  }

  /** The records of a move; the two procedures clear the counter and the pending record in different orders. */
  function MoveCode(cfg: Settings, target: NodeId, containerId: string, at: Time, counterFirst: bool, next: Code): Code
  {
    IncrementGeneration((generation: nat) =>
    Do(PutPlacement(target, at),
    Do(if counterFirst then ResetCounter else PopPending,
    Do(if counterFirst then PopPending else ResetCounter,
    Do(PutMoved(cfg, target, containerId, generation, at), next)))))
  }

  lemma MoveMeans(cfg: Settings, target: NodeId, containerId: string, at: Time, counterFirst: bool, next: Code,
                  st: Service, seen: seq<NodeList>, out: Service)
    requires Ends(MoveCode(cfg, target, containerId, at, counterFirst, next), st, seen, out)
    ensures Ends(next, MovedTo(cfg, st, target, containerId, at), seen, out)
  {
    hide Ends;
    var c := Follow(Config(MoveCode(cfg, target, containerId, at, counterFirst, next), st), seen, out);
    c := FollowDo(c, seen, out);
    c := FollowDo(c, seen, out);
    c := FollowDo(c, seen, out);
    c := FollowDo(c, seen, out);
  }

  function MoveAfterRestartsCode(cfg: Settings, current: NodeId, target: NodeId, containerId: string, at: Time,
                                 next: Code): Code
  {
    MoveCode(cfg, target, containerId, at, true,
    Do(AddRecord(RescheduledAfterRestarts, current, target, at),
    Do(CoolingDown(cfg, at),
    Do(Call(IngressSync), next))))
  }

  lemma MoveAfterRestartsMeans(cfg: Settings, current: NodeId, target: NodeId, containerId: string, at: Time,
                               next: Code,
                               st: Service, seen: seq<NodeList>, out: Service)
    requires Ends(MoveAfterRestartsCode(cfg, current, target, containerId, at, next), st, seen, out)
    ensures Ends(next, MovedTo(cfg, st, target, containerId, at)
                         .Did(Recovered(RecoveryRecord(st.id, RescheduledAfterRestarts, current, target, at)))
                         .CoolDown(cfg, at).Did(IngressSync), seen, out)
  {
    hide Ends, MoveCode;
    var code := Do(AddRecord(RescheduledAfterRestarts, current, target, at),
                   Do(CoolingDown(cfg, at), Do(Call(IngressSync), next)));
    MoveMeans(cfg, target, containerId, at, true, code, st, seen, out);
    var c := FollowDo(Config(code, MovedTo(cfg, st, target, containerId, at)), seen, out);
    c := FollowDo(c, seen, out);
    c := FollowDo(c, seen, out);
  }

  lemma RescheduleMeans(cfg: Settings, pick: Pick, current: NodeId, at: Time, o: Outcomes, next: Code, first: NodeList,
                        st: Service, seen: seq<NodeList>, out: Service)
    requires Ends(RescheduleCode(cfg, pick, current, at, o, next), st, seen, out)
    ensures st.desired.Some? ==> seen != []
    ensures Ends(next, RescheduleExhausted(cfg, pick, st, current, at, EnvOf([first] + seen, o)),
                 if st.desired.Some? then seen[1..] else seen, out)
  {
    hide Ends, RescheduleOn;
    var c := Follow(Config(RescheduleCode(cfg, pick, current, at, o, next), st), seen, out);
    if st.desired.Some? {
      c := Follow(c, seen, out);
      c := FollowRead(c, seen, out);
      RescheduleOnMeans(cfg, pick, current, at, EnvOf([first] + seen, o), o, next, st, seen[1..], out);
    }
  }

  lemma RescheduleOnMeans(cfg: Settings, pick: Pick, current: NodeId, at: Time, env: Environment, o: Outcomes,
                          next: Code,
                          st: Service, seen: seq<NodeList>, out: Service)
    requires st.desired.Some? && env.deployReply == o.deployReply && env.stopOk == o.stopOk
    requires Ends(RescheduleOn(cfg, pick, st.desired.value.service, st.observed, current, env.nodesAgain, at, o, next),
                  st, seen, out)
    ensures Ends(next, RescheduleExhausted(cfg, pick, st, current, at, env), seen, out)
  {
    var nodes := env.nodesAgain;
    hide Ends, GiveUp, MovedTo, GiveUpAndCoolDownCode, MoveAfterRestartsCode, FindNode, WithoutNode;
    var choice := pick(st.desired.value.service, WithoutNode(nodes, current));
    if choice.None? {
      GiveUpAndCoolDownMeans(cfg, RestartExhaustedNoCandidate, Pending, current, at, next, st, seen, out);
    } else if FindNode(nodes, choice.value).None? {
      GiveUpAndCoolDownMeans(cfg, RestartExhaustedTargetGone, Pending, current, at, next, st, seen, out);
    } else {
      var target := FindNode(nodes, choice.value).value.nodeId;
      var code := RescheduleOn(cfg, pick, st.desired.value.service, st.observed, current, nodes, at, o, next);
      var c := Follow(Config(code, st), seen, out);
      if o.deployReply.Refused? {
        GiveUpAndCoolDownMeans(cfg, RestartExhaustedDeployFailed, Failed, current, at, next, c.st, seen, out);
      } else {
        if FindNode(nodes, current).Some? { c := Follow(c, seen, out); }
        MoveAfterRestartsMeans(cfg, current, target, o.deployReply.containerId, at, next, c.st, seen, out);
      }
    }
  }

  // Node unreachable.

  function UnreachableCode(cfg: Settings, pick: Pick, listed: Placement, at: Time, o: Outcomes): Code
  {
    Do(Enter,
    GetDesired((desired: Option<DesiredState>) =>
    if desired.None? then Done
    else
      GetObserved(observed =>
      ListNodes(nodes => EvacuateOn(cfg, pick, desired.value.service, observed, listed, nodes, at, o)))))
  }

  function EvacuateOn(cfg: Settings, pick: Pick, spec: ServiceSpec, observed: Option<ObservedState>, listed: Placement,
                      nodes: NodeList, at: Time, o: Outcomes): Code
  {
    var choice := pick(spec, WithoutNode(nodes, listed.nodeId));
    if choice.None? then
      Do(PutPending(UnreachableNoCandidate, at),
      Do(PutParked(observed, at),
      Do(Call(IngressSync), Done)))
    else
      var target := FindNode(nodes, choice.value);
      if target.None? then
        GiveUpCode(observed, UnreachableTargetGone, Pending, listed.nodeId, at)
      else
        Do(Call(AgentDeploy(target.value.nodeId, o.deployReply.Accepted?)),
        if o.deployReply.Refused? then
          GiveUpCode(observed, UnreachableDeployFailed, Failed, listed.nodeId, at)
        else
          MoveCode(cfg, target.value.nodeId, o.deployReply.containerId, at, false,
          Do(AddRecord(RescheduledFromUnreachable, listed.nodeId, target.value.nodeId, at),
          Do(Call(IngressSync), Done))))
  }

  function PutParked(observed: Option<ObservedState>, at: Time): Write
  {
    match observed
    case Some(o) => PutObserved(o.(status := Pending, health := Unknown, nodeId := None, lastReportedAt := at))
    case None => PutObserved(ObservedState(Pending, Unknown, None, None, at, 0, None))
  }

  function GiveUpCode(observed: Option<ObservedState>, reason: PendingReason, status: Status, node: NodeId,
                      at: Time): Code
  {
    Do(PutPending(reason, at),
    Do(PutGivenUp(observed, status, node, at),
    Do(Call(IngressSync), Done)))
  }

  lemma GiveUpMeans(reason: PendingReason, status: Status, node: NodeId, at: Time, st: Service, seen: seq<NodeList>,
                    out: Service)
    requires Ends(GiveUpCode(st.observed, reason, status, node, at), st, seen, out)
    ensures out == GiveUp(st, reason, status, node, at)
  {
    hide Ends;
    var c := FollowDo(Config(GiveUpCode(st.observed, reason, status, node, at), st), seen, out);
    c := FollowDo(c, seen, out);
    c := FollowDo(c, seen, out);
    DoneEnds(c.st, seen, out);
  }

  lemma UnreachableMeans(cfg: Settings, pick: Pick, listed: Placement, at: Time, o: Outcomes,
                         st: Service, seen: seq<NodeList>, out: Service)
    requires Ends(UnreachableCode(cfg, pick, listed, at, o), st, seen, out)
    ensures out == OnUnreachable(cfg, pick, st.(effects := []), listed, at, EnvOf(seen, o))
  {
    hide Ends, EvacuateOn;
    var c := FollowDo(Config(UnreachableCode(cfg, pick, listed, at, o), st), seen, out);
    c := Follow(c, seen, out);
    if st.desired.None? {
      DoneEnds(c.st, seen, out);
    } else {
      c := Follow(c, seen, out);
      c := FollowRead(c, seen, out);
      EvacuateOnMeans(cfg, pick, listed, at, EnvOf(seen, o), o, c.st, seen[1..], out);
    }
  }

  lemma EvacuateOnMeans(cfg: Settings, pick: Pick, listed: Placement, at: Time, env: Environment, o: Outcomes,
                        st: Service, seen: seq<NodeList>, out: Service)
    requires st.desired.Some? && env.deployReply == o.deployReply
    requires Ends(EvacuateOn(cfg, pick, st.desired.value.service, st.observed, listed, env.nodes, at, o), st, seen, out)
    ensures out == OnUnreachable(cfg, pick, st, listed, at, env)
  {
    var nodes := env.nodes;
    hide Ends, FindNode, WithoutNode, GiveUp, GiveUpCode, MoveCode, MovedTo;
    var choice := pick(st.desired.value.service, WithoutNode(nodes, listed.nodeId));
    var code := EvacuateOn(cfg, pick, st.desired.value.service, st.observed, listed, nodes, at, o);
    if choice.None? {
      var c := FollowDo(Config(code, st), seen, out);
      c := FollowDo(c, seen, out);
      c := FollowDo(c, seen, out);
      DoneEnds(c.st, seen, out);
    } else if FindNode(nodes, choice.value).None? {
      GiveUpMeans(UnreachableTargetGone, Pending, listed.nodeId, at, st, seen, out);
    } else {
      var target := FindNode(nodes, choice.value).value.nodeId;
      var c := FollowDo(Config(code, st), seen, out);
      if o.deployReply.Refused? {
        GiveUpMeans(UnreachableDeployFailed, Failed, listed.nodeId, at, c.st, seen, out);
      } else {
        var rest := Do(AddRecord(RescheduledFromUnreachable, listed.nodeId, target, at), Do(Call(IngressSync), Done));
        MoveMeans(cfg, target, o.deployReply.containerId, at, false, rest, c.st, seen, out);
        c := FollowDo(Config(rest, MovedTo(cfg, c.st, target, o.deployReply.containerId, at)), seen, out);
        c := FollowDo(c, seen, out);
        DoneEnds(c.st, seen, out);
        MoveKeepsId(cfg, st.Did(AgentDeploy(target, true)), target, o.deployReply.containerId, at);
      }
    }
  }

  lemma MoveKeepsId(cfg: Settings, st: Service, target: NodeId, containerId: string, at: Time)
    ensures MovedTo(cfg, st, target, containerId, at).id == st.id
  {
  }

  // The report handlers.

  /** What a report handler does with the records of the instance the report is about. */
  type Body = (ObservedState, DesiredState, Placement, nat) -> Code

  /** The guards both report handlers begin with. */
  function IfCurrent(nodeId: NodeId, tag: Option<int>, next: Body): Code
  {
    Do(Enter,
    GetObserved((observed: Option<ObservedState>) =>
    if observed.None? then Done else IfPlacedHere(observed.value, nodeId, tag, next)))
  }

  function IfPlacedHere(observed: ObservedState, nodeId: NodeId, tag: Option<int>, next: Body): Code
  {
    GetDesired((desired: Option<DesiredState>) =>
    GetPlacement((placement: Option<Placement>) =>
    if desired.None? || desired.value.status == Stopped || placement.None? then Done
    else if placement.value.nodeId != nodeId then Done
    else
      GetGeneration((generation: nat) =>
      if tag.Some? && tag.value != generation then Done
      else next(observed, desired.value, placement.value, generation))))
  }

  lemma IfPlacedHereMeans(nodeId: NodeId, tag: Option<int>, next: Body, st: Service, seen: seq<NodeList>, out: Service)
    requires st.observed.Some? && Ends(IfPlacedHere(st.observed.value, nodeId, tag, next), st, seen, out)
    ensures if ReportIsCurrent(st, nodeId, tag) then
              Ends(next(st.observed.value, st.desired.value, st.placement.value, st.generation), st, seen, out)
            else out == st
  {
    hide Ends;
    var c := Follow(Config(IfPlacedHere(st.observed.value, nodeId, tag, next), st), seen, out);
    c := Follow(c, seen, out);
    if st.WantsToRun() && OnNode(st, nodeId) {
      c := Follow(c, seen, out);
    }
    if !ReportIsCurrent(st, nodeId, tag) {
      DoneEnds(c.st, seen, out);
    }
  }

  lemma IfCurrentMeans(nodeId: NodeId, tag: Option<int>, next: Body, before: Service, seen: seq<NodeList>, out: Service)
    requires Ends(IfCurrent(nodeId, tag, next), before, seen, out)
    ensures var st := before.(effects := []);
            if ReportIsCurrent(st, nodeId, tag) then
              Ends(next(st.observed.value, st.desired.value, st.placement.value, st.generation), st, seen, out)
            else out == st
  {
    hide Ends, IfPlacedHere;
    var c := FollowDo(Config(IfCurrent(nodeId, tag, next), before), seen, out);
    c := Follow(c, seen, out);
    if before.observed.None? {
      DoneEnds(c.st, seen, out);
    } else {
      IfPlacedHereMeans(nodeId, tag, next, c.st, seen, out);
    }
  }

  function Release(): Code { Do(ReleaseRecovery, Done) }

  lemma ReleaseMeans(st: Service, seen: seq<NodeList>, out: Service)
    requires Ends(Release(), st, seen, out)
    ensures out == st.(activeRecovery := None)
  {
    hide Ends;
    var c := FollowDo(Config(Release(), st), seen, out);
    DoneEnds(c.st, seen, out);
  }

  function CrashCode(cfg: Settings, pick: Pick, r: CrashReport, o: Outcomes): Code
  {
    IfCurrent(r.nodeId, r.generation, CrashBody(cfg, pick, r, o))
  }

  function CrashBody(cfg: Settings, pick: Pick, r: CrashReport, o: Outcomes): Body
  {
    (observed: ObservedState, desired: DesiredState, placement: Placement, generation: nat) =>
      if InStartupGrace(observed, r.occurredAt) then Done
      else TryAcquireRecovery(generation, CrashRecoveryCode(cfg, pick, observed, placement.nodeId, r.occurredAt, o))
  }

  function CrashRecoveryCode(cfg: Settings, pick: Pick, observed: ObservedState, home: NodeId, at: Time,
                             o: Outcomes): Code
  {
    Do(PutObserved(observed.(health := IsUnhealthy, lastReportedAt := at)),
    IncrementRestarts((count: nat) =>
    ListNodes(nodes => CrashActionCode(cfg, pick, count, FindNode(nodes, home), home, at, o))))
  }

  function CrashActionCode(cfg: Settings, pick: Pick, count: nat, node: Option<NodeState>, home: NodeId, at: Time,
                           o: Outcomes): Code
  {
    if count <= cfg.maxRestartAttempts && node.Some? then
      RestartCode(cfg, node.value.nodeId, at, o.restartOk, Release())
    else RescheduleCode(cfg, pick, home, at, o, Release())
  }

  lemma CrashRecoveryMeans(cfg: Settings, pick: Pick, at: Time, o: Outcomes, st: Service, seen: seq<NodeList>,
                           out: Service)
    requires st.observed.Some? && st.placement.Some?
    requires Ends(CrashRecoveryCode(cfg, pick, st.observed.value, st.placement.value.nodeId, at, o), st, seen, out)
    ensures out == CrashRecovery(cfg, pick, st, at, EnvOf(seen, o)).(activeRecovery := None)
  {
    hide Ends, Release, RestartCode, RescheduleCode, RestartSameNode, RescheduleExhausted, FindNode;
    var home := st.placement.value.nodeId;
    var c := FollowDo(Config(CrashRecoveryCode(cfg, pick, st.observed.value, home, at, o), st), seen, out);
    c := Follow(c, seen, out);
    c := FollowRead(c, seen, out);
    var env, node := EnvOf(seen, o), FindNode(seen[0], home);
    if c.st.restarts <= cfg.maxRestartAttempts && node.Some? {
      RestartMeans(cfg, node.value.nodeId, at, env, Release(), c.st, seen[1..], out);
      ReleaseMeans(RestartSameNode(cfg, c.st, node.value.nodeId, at, env), seen[1..], out);
    } else {
      RescheduleThenRelease(cfg, pick, home, at, o, c.st, seen, out);
    }
  }

  lemma RescheduleThenRelease(cfg: Settings, pick: Pick, current: NodeId, at: Time, o: Outcomes,
                              st: Service, seen: seq<NodeList>, out: Service)
    requires seen != [] && Ends(RescheduleCode(cfg, pick, current, at, o, Release()), st, seen[1..], out)
    ensures out == RescheduleExhausted(cfg, pick, st, current, at, EnvOf(seen, o)).(activeRecovery := None)
  {
    hide Ends, Release, RescheduleCode, RescheduleExhausted;
    RescheduleMeans(cfg, pick, current, at, o, Release(), seen[0], st, seen[1..], out);
    assert [seen[0]] + seen[1..] == seen;
    ReleaseMeans(RescheduleExhausted(cfg, pick, st, current, at, EnvOf(seen, o)),
                 if st.desired.Some? then seen[1..][1..] else seen[1..], out);
  }

  lemma CrashMeans(cfg: Settings, pick: Pick, r: CrashReport, o: Outcomes, before: Service, seen: seq<NodeList>,
                   out: Service)
    requires Ends(CrashCode(cfg, pick, r, o), before, seen, out)
    ensures out == OnCrash(cfg, pick, before.(effects := []), r, EnvOf(seen, o))
  {
    hide Ends, IfCurrent, CrashRecoveryCode, CrashRecovery, ReportIsCurrent;
    var st := before.(effects := []);
    var next := CrashBody(cfg, pick, r, o);
    IfCurrentMeans(r.nodeId, r.generation, next, before, seen, out);
    if ReportIsCurrent(st, r.nodeId, r.generation) {
      IsCurrentMeans(st, r.nodeId, r.generation);
      if InStartupGrace(st.observed.value, r.occurredAt) {
        DoneEnds(st, seen, out);
      } else {
        var c := Follow(Config(next(st.observed.value, st.desired.value, st.placement.value, st.generation), st), seen,
                        out);
        if st.activeRecovery == Some(st.generation) {
          DoneEnds(st, seen, out);
        } else {
          CrashRecoveryMeans(cfg, pick, r.occurredAt, o, c.st, seen, out);
        }
      }
    }
  }

  lemma IsCurrentMeans(st: Service, nodeId: NodeId, tag: Option<int>)
    requires ReportIsCurrent(st, nodeId, tag)
    ensures st.observed.Some? && st.desired.Some? && st.placement.Some?
  {
  }

  function HealthCode(cfg: Settings, pick: Pick, r: HealthReport, o: Outcomes): Code
  {
    IfCurrent(r.nodeId, r.generation, HealthBody(cfg, pick, r, o))
  }

  function HealthBody(cfg: Settings, pick: Pick, r: HealthReport, o: Outcomes): Body
  {
    (observed: ObservedState, desired: DesiredState, placement: Placement, generation: nat) =>
      if r.healthy then HealthyCode(observed, desired, r.observedAt)
      else UnhealthyCode(cfg, pick, observed, placement.nodeId, generation, r, o)
  }

  function UnhealthyCode(cfg: Settings, pick: Pick, observed: ObservedState, home: NodeId, generation: nat,
                         r: HealthReport, o: Outcomes): Code
  {
    if InStartupGrace(observed, r.observedAt) then Done
    else
      Do(PutObserved(observed.(health := IsUnhealthy, lastReportedAt := r.observedAt)),
      if r.consecutiveFailures < cfg.healthCheckRetries then Done
      else
        UnlessInCooldown(r.observedAt,
        TryAcquireRecovery(generation,
        HealthRecoveryCode(cfg, pick, observed, home, r.observedAt, o))))
  }

  function HealthyCode(observed: ObservedState, desired: DesiredState, at: Time): Code
  {
    Do(PopPending,
    Do(ResetCounter,
    Do(ClearCooldown,
    Do(PutObserved(observed.(health := IsHealthy, status := Running, lastReportedAt := at, startupGraceUntil := None)),
    Do(PutDesired(desired.(status := Running, updatedAt := at)), Done)))))
  }

  lemma HealthyMeans(observed: ObservedState, desired: DesiredState, at: Time, st: Service, seen: seq<NodeList>,
                     out: Service)
    requires Ends(HealthyCode(observed, desired, at), st, seen, out)
    ensures out == MarkedHealthy(st, observed, desired, at)
  {
    hide Ends;
    var c := FollowDo(Config(HealthyCode(observed, desired, at), st), seen, out);
    c := FollowDo(c, seen, out);
    c := FollowDo(c, seen, out);
    c := FollowDo(c, seen, out);
    c := FollowDo(c, seen, out);
    DoneEnds(c.st, seen, out);
  }

  function HealthRecoveryCode(cfg: Settings, pick: Pick, observed: ObservedState, home: NodeId, at: Time,
                              o: Outcomes): Code
  {
    ListNodes(nodes =>
    var node := FindNode(nodes, home);
    if node.None? then
      GiveUpAndCoolDownCode(cfg, Some(observed), CurrentNodeMissing, Pending, home, at, Release())
    else
      IncrementRestarts((count: nat) =>
      if count <= cfg.maxRestartAttempts then
        RestartCode(cfg, node.value.nodeId, at, o.restartOk, Release())
      else
        RescheduleCode(cfg, pick, node.value.nodeId, at, o, Release())))
  }

  lemma HealthRecoveryMeans(cfg: Settings, pick: Pick, observed: ObservedState, at: Time, o: Outcomes,
                            st: Service, seen: seq<NodeList>, out: Service)
    requires st.placement.Some? && st.observed == Some(observed.(health := IsUnhealthy, lastReportedAt := at))
    requires Ends(HealthRecoveryCode(cfg, pick, observed, st.placement.value.nodeId, at, o), st, seen, out)
    ensures out == HealthRecovery(cfg, pick, st, at, EnvOf(seen, o)).(activeRecovery := None)
  {
    hide Ends, Release, RestartCode, RescheduleCode, RestartSameNode, RescheduleExhausted, FindNode;
    hide GiveUpAndCoolDownCode, GiveUp;
    var home := st.placement.value.nodeId;
    var c := FollowRead(Config(HealthRecoveryCode(cfg, pick, observed, home, at, o), st), seen, out);
    var env, node := EnvOf(seen, o), FindNode(seen[0], home);
    if node.None? {
      SameGivenUp(cfg, observed, CurrentNodeMissing, Pending, home, at, Release());
      GiveUpAndCoolDownMeans(cfg, CurrentNodeMissing, Pending, home, at, Release(), st, seen[1..], out);
      ReleaseMeans(GiveUp(st, CurrentNodeMissing, Pending, home, at).CoolDown(cfg, at), seen[1..], out);
    } else {
      c := Follow(c, seen[1..], out);
      if c.st.restarts <= cfg.maxRestartAttempts {
        RestartMeans(cfg, node.value.nodeId, at, env, Release(), c.st, seen[1..], out);
        ReleaseMeans(RestartSameNode(cfg, c.st, node.value.nodeId, at, env), seen[1..], out);
      } else {
        RescheduleThenRelease(cfg, pick, node.value.nodeId, at, o, c.st, seen, out);
      }
    }
  }

  /** The health handler gives up from the observation it read at its start, which differs from the stored one only in
      fields that giving up overwrites. */
  lemma SameGivenUp(cfg: Settings, observed: ObservedState, reason: PendingReason, status: Status, node: NodeId,
                    at: Time, next: Code)
    ensures GiveUpAndCoolDownCode(cfg, Some(observed), reason, status, node, at, next)
         == GiveUpAndCoolDownCode(cfg, Some(observed.(health := IsUnhealthy, lastReportedAt := at)), reason, status,
                                  node, at, next)
  {
  }

  lemma UnhealthyMeans(cfg: Settings, pick: Pick, r: HealthReport, o: Outcomes, st: Service, seen: seq<NodeList>,
                       out: Service)
    requires st.observed.Some? && st.placement.Some?
    requires Ends(UnhealthyCode(cfg, pick, st.observed.value, st.placement.value.nodeId, st.generation, r, o), st, seen,
                  out)
    ensures out == OnUnhealthy(cfg, pick, st, st.observed.value, r, EnvOf(seen, o))
  {
    hide Ends, HealthRecoveryCode, HealthRecovery;
    var c := Config(UnhealthyCode(cfg, pick, st.observed.value, st.placement.value.nodeId, st.generation, r, o), st);
    if InStartupGrace(st.observed.value, r.observedAt) {
      DoneEnds(c.st, seen, out);
      return;
    }
    c := FollowDo(c, seen, out);
    if r.consecutiveFailures < cfg.healthCheckRetries {
      DoneEnds(c.st, seen, out);
      return;
    }
    c := Follow(c, seen, out);
    if c.code.Done? {
      DoneEnds(c.st, seen, out);
      return;
    }
    c := Follow(c, seen, out);
    if c.code.Done? && st.activeRecovery == Some(st.generation) {
      DoneEnds(c.st, seen, out);
    } else {
      HealthRecoveryMeans(cfg, pick, st.observed.value, r.observedAt, o, c.st, seen, out);
    }
  }

  lemma HealthMeans(cfg: Settings, pick: Pick, r: HealthReport, o: Outcomes, before: Service, seen: seq<NodeList>,
                    out: Service)
    requires Ends(HealthCode(cfg, pick, r, o), before, seen, out)
    ensures out == OnHealth(cfg, pick, before.(effects := []), r, EnvOf(seen, o))
  {
    hide Ends, IfCurrent, UnhealthyCode, HealthyCode, MarkedHealthy, OnUnhealthy, ReportIsCurrent;
    var st := before.(effects := []);
    IfCurrentMeans(r.nodeId, r.generation, HealthBody(cfg, pick, r, o), before, seen, out);
    if ReportIsCurrent(st, r.nodeId, r.generation) {
      IsCurrentMeans(st, r.nodeId, r.generation);
      if r.healthy {
        HealthyMeans(st.observed.value, st.desired.value, r.observedAt, st, seen, out);
      } else {
        UnhealthyMeans(cfg, pick, r, o, st, seen, out);
      }
    }
  }

  // The service manager.

  function DeployBody(pick: Pick, spec: ServiceSpec, now: Time, o: Outcomes): Code
  {
    GetObserved((existing: Option<ObservedState>) =>
    if existing.Some? && existing.value.status == Running then Done
    else
      Do(PutDesired(DesiredState(spec, Deploying, now, now)),
      ListNodes(nodes => DeployOnCode(pick, spec, nodes, now, o))))
  }

  function DeployOnCode(pick: Pick, spec: ServiceSpec, nodes: NodeList, now: Time, o: Outcomes): Code
  {
    var choice := pick(spec, nodes);
    if choice.None? then UnplacedCode(PlacementFailed, NoEligibleNode, now)
    else
      var target := FindNode(nodes, choice.value);
      if target.None? then Done
      else
        Do(Call(AgentDeploy(target.value.nodeId, o.deployReply.Accepted?)),
        match o.deployReply
        case Refused(error) => UnplacedCode(Pending, AgentRefused(error), now)
        case Accepted(containerId) => DeployedCode(spec, target.value.nodeId, containerId, now))
  }

  function UnplacedCode(status: Status, reason: PendingReason, now: Time): Code
  {
    Do(PutObserved(ObservedState(status, Unknown, None, None, now, 0, None)),
    Do(PutPending(reason, now),
    Do(Call(IngressSync), Done)))
  }

  function DeployedCode(spec: ServiceSpec, target: NodeId, containerId: string, now: Time): Code
  {
    Do(PutPlacement(target, now),
    Do(PopPending,
    Do(PutDesired(DesiredState(spec, Running, now, now)),
    Do(PutObserved(ObservedState(Running, Unknown, Some(containerId), Some(target), now, 0, None)),
    Do(ResetCounter,
    Do(Call(IngressSync), Done))))))
  }

  lemma UnplacedMeans(status: Status, reason: PendingReason, now: Time, st: Service, seen: seq<NodeList>, out: Service)
    requires Ends(UnplacedCode(status, reason, now), st, seen, out)
    ensures out == Unplaced(st, status, reason, now)
  {
    hide Ends;
    var c := FollowDo(Config(UnplacedCode(status, reason, now), st), seen, out);
    c := FollowDo(c, seen, out);
    c := FollowDo(c, seen, out);
    DoneEnds(c.st, seen, out);
  }

  lemma DeployedMeans(spec: ServiceSpec, target: NodeId, containerId: string, now: Time, st: Service,
                      seen: seq<NodeList>, out: Service)
    requires Ends(DeployedCode(spec, target, containerId, now), st, seen, out)
    ensures out == DeployedOn(st, target, containerId, spec, now)
  {
    hide Ends;
    var c := FollowDo(Config(DeployedCode(spec, target, containerId, now), st), seen, out);
    c := FollowDo(c, seen, out);
    c := FollowDo(c, seen, out);
    c := FollowDo(c, seen, out);
    c := FollowDo(c, seen, out);
    c := FollowDo(c, seen, out);
    DoneEnds(c.st, seen, out);
  }

  lemma DeployMeans(pick: Pick, spec: ServiceSpec, now: Time, o: Outcomes, st: Service, seen: seq<NodeList>,
                    out: Service)
    requires Ends(DeployBody(pick, spec, now, o), st, seen, out)
    ensures out == Deploy(pick, st, spec, now, EnvOf(seen, o))
  {
    hide Ends, UnplacedCode, DeployedCode, Unplaced, DeployedOn, FindNode;
    var c := Follow(Config(DeployBody(pick, spec, now, o), st), seen, out);
    if st.IsObserved(Running) {
      DoneEnds(c.st, seen, out);
      return;
    }
    c := FollowDo(c, seen, out);
    c := FollowRead(c, seen, out);
    var rest, nodes := seen[1..], seen[0];
    var choice := pick(spec, nodes);
    if choice.None? {
      UnplacedMeans(PlacementFailed, NoEligibleNode, now, c.st, rest, out);
    } else if FindNode(nodes, choice.value).None? {
      DoneEnds(c.st, rest, out);
    } else {
      var target := FindNode(nodes, choice.value).value.nodeId;
      c := FollowDo(c, rest, out);
      match o.deployReply
      case Refused(error) => UnplacedMeans(Pending, AgentRefused(error), now, c.st, rest, out);
      case Accepted(containerId) => DeployedMeans(spec, target, containerId, now, c.st, rest, out);
    }
  }

  function DeployCode(pick: Pick, spec: ServiceSpec, now: Time, o: Outcomes): Code
  {
    Do(Enter, DeployBody(pick, spec, now, o))
  }

  function RetryCode(pick: Pick, now: Time, o: Outcomes): Code
  {
    Do(Enter,
    GetDesired((desired: Option<DesiredState>) =>
    if desired.None? then Do(PopPending, Done) else DeployBody(pick, desired.value.service, now, o)))
  }

  lemma RetryMeans(pick: Pick, now: Time, o: Outcomes, before: Service, seen: seq<NodeList>, out: Service)
    requires Ends(RetryCode(pick, now, o), before, seen, out)
    ensures out == RetryPending(pick, before.(effects := []), now, EnvOf(seen, o))
  {
    hide Ends, DeployBody, Deploy;
    var c := FollowDo(Config(RetryCode(pick, now, o), before), seen, out);
    c := Follow(c, seen, out);
    if before.desired.None? {
      c := FollowDo(c, seen, out);
      DoneEnds(c.st, seen, out);
    } else {
      DeployMeans(pick, before.desired.value.service, now, o, c.st, seen, out);
    }
  }

  function StopCode(now: Time, o: Outcomes): Code
  {
    Do(Enter,
    GetPlacement((placement: Option<Placement>) =>
    if placement.None? then StoppedCode(now)
    else
      ListNodes(nodes =>
      if FindNode(nodes, placement.value.nodeId).None? then StoppedCode(now)
      else Do(Call(AgentStop(placement.value.nodeId, o.stopOk)), StoppedCode(now)))))
  }

  function StoppedCode(now: Time): Code
  {
    Do(PutObserved(ObservedState(Stopped, Unknown, None, None, now, 0, None)),
    Do(ClearPlacement,
    Do(PopPending,
    Do(ResetCounter,
    GetDesired((desired: Option<DesiredState>) =>
    if desired.None? then Do(Call(IngressSync), Done)
    else Do(PutDesired(desired.value.(status := Stopped, updatedAt := now)), Do(Call(IngressSync), Done)))))))
  }

  lemma StoppedMeans(now: Time, st: Service, seen: seq<NodeList>, out: Service)
    requires Ends(StoppedCode(now), st, seen, out)
    ensures out == StoppedRecord(st, now).Did(IngressSync)
  {
    hide Ends;
    var c := FollowDo(Config(StoppedCode(now), st), seen, out);
    c := FollowDo(c, seen, out);
    c := FollowDo(c, seen, out);
    c := FollowDo(c, seen, out);
    c := Follow(c, seen, out);
    if st.desired.Some? { c := FollowDo(c, seen, out); }
    c := FollowDo(c, seen, out);
    DoneEnds(c.st, seen, out);
  }

  lemma StopMeans(now: Time, o: Outcomes, before: Service, seen: seq<NodeList>, out: Service)
    requires Ends(StopCode(now, o), before, seen, out)
    ensures out == Stop(before.(effects := []), now, EnvOf(seen, o))
  {
    hide Ends, StoppedCode, StoppedRecord, FindNode;
    var c := FollowDo(Config(StopCode(now, o), before), seen, out);
    var rest := seen;
    c := Follow(c, rest, out);
    if before.placement.Some? {
      c := FollowRead(c, rest, out);
      rest := rest[1..];
      if FindNode(seen[0], before.placement.value.nodeId).Some? { c := FollowDo(c, rest, out); }
    }
    StoppedMeans(now, c.st, rest, out);
  }

  function ApiRestartCode(now: Time, o: Outcomes): Code
  {
    Do(Enter,
    GetPlacement((placement: Option<Placement>) =>
    GetObserved((observed: Option<ObservedState>) =>
    if placement.None? then Done
    else
      ListNodes(nodes => ApiRestartOn(FindNode(nodes, placement.value.nodeId), observed, now, o)))))
  }

  function ApiRestartOn(node: Option<NodeState>, observed: Option<ObservedState>, now: Time, o: Outcomes): Code
  {
    if node.None? then Done
    else
      Do(Call(AgentRestart(node.value.nodeId, o.restartOk, false)),
      if !o.restartOk then Done
      else
        Do(match observed
           case None => PutObserved(ObservedState(Running, Unknown, None, Some(node.value.nodeId), now, 0, None))
           case Some(seen) => PutObserved(seen.(status := Running, health := Unknown)),
        Do(Call(IngressSync), Done)))
  }

  lemma ApiRestartMeans(now: Time, o: Outcomes, before: Service, seen: seq<NodeList>, out: Service)
    requires Ends(ApiRestartCode(now, o), before, seen, out)
    ensures out == Restart(before.(effects := []), now, EnvOf(seen, o))
  {
    hide Ends, FindNode;
    var c := FollowDo(Config(ApiRestartCode(now, o), before), seen, out);
    var rest := seen;
    c := Follow(c, rest, out);
    c := Follow(c, rest, out);
    if before.placement.Some? {
      c := FollowRead(c, rest, out);
      rest := rest[1..];
      if FindNode(seen[0], before.placement.value.nodeId).Some? {
        c := FollowDo(c, rest, out);
        if o.restartOk {
          c := FollowDo(c, rest, out);
          c := FollowDo(c, rest, out);
        }
      }
    }
    DoneEnds(c.st, rest, out);
  }

  // All handlers.

  datatype Request =
    | CrashRequest(crash: CrashReport)
    | HealthRequest(health: HealthReport)
    | UnreachableRequest(listed: Placement, at: Time)
    | DeployRequest(spec: ServiceSpec, at: Time)
    | StopRequest(at: Time)
    | RestartRequest(at: Time)
    | RetryRequest(at: Time)

  function CodeOf(cfg: Settings, pick: Pick, request: Request, o: Outcomes): Code
  {
    match request
    case CrashRequest(r) => CrashCode(cfg, pick, r, o)
    case HealthRequest(r) => HealthCode(cfg, pick, r, o)
    case UnreachableRequest(listed, at) => UnreachableCode(cfg, pick, listed, at, o)
    case DeployRequest(spec, at) => DeployCode(pick, spec, at, o)
    case StopRequest(at) => StopCode(at, o)
    case RestartRequest(at) => ApiRestartCode(at, o)
    case RetryRequest(at) => RetryCode(pick, at, o)
  }

  function StepOf(request: Request, env: Environment): Step
  {
    match request
    case CrashRequest(r) => CrashStep(r, env)
    case HealthRequest(r) => HealthStep(r, env)
    case UnreachableRequest(listed, at) => UnreachableStep(listed, at, env)
    case DeployRequest(spec, at) => DeployStep(spec, at, env)
    case StopRequest(at) => StopStep(at, env)
    case RestartRequest(at) => RestartStep(at, env)
    case RetryRequest(at) => RetryStep(at, env)
  }

  /** A handler that runs alone to its end does what its step function says for exactly the node tables it read. */
  lemma CodeMeans(cfg: Settings, pick: Pick, request: Request, o: Outcomes, st: Service, seen: seq<NodeList>,
                  out: Service)
    requires Ends(CodeOf(cfg, pick, request, o), st, seen, out)
    ensures out == Apply(cfg, pick, st, StepOf(request, EnvOf(seen, o)))
  {
    hide Ends, CrashCode, HealthCode, UnreachableCode, StopCode, ApiRestartCode, RetryCode, DeployBody;
    hide OnCrash, OnHealth, OnUnreachable, Deploy, Stop, Restart, RetryPending;
    match request
    case CrashRequest(r) => CrashMeans(cfg, pick, r, o, st, seen, out);
    case HealthRequest(r) => HealthMeans(cfg, pick, r, o, st, seen, out);
    case UnreachableRequest(listed, at) => UnreachableMeans(cfg, pick, listed, at, o, st, seen, out);
    case DeployRequest(spec, at) =>
      var c := FollowDo(Config(DeployCode(pick, spec, at, o), st), seen, out);
      DeployMeans(pick, spec, at, o, c.st, seen, out);
    case StopRequest(at) => StopMeans(at, o, st, seen, out);
    case RestartRequest(at) => ApiRestartMeans(at, o, st, seen, out);
    case RetryRequest(at) => RetryMeans(pick, at, o, st, seen, out);
  }
}
