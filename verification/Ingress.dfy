// controller/ingress_manager.py: which upstream target is published for the active service, and the safety of the
// upstream file over all runs.

module Ingress {
  import opened Models
  import opened Lifecycle
  import opened StepFacts
  import opened Ordering
  import NodeAddress
  import StateStore

  datatype IngressSettings = IngressSettings(
    enabled: bool,
    activeService: ServiceId,
    reloadEnabled: bool,
    unavailableTarget: string)

  /** One attempt to read the agent's local state: it fails, or yields the node address the agent advertises and the
      published port of the service's workload, if it has one. */
  datatype LocalRead = Unreadable | Local(nodeAddress: string, publishedPort: Option<nat>)

  type Answers = nat -> LocalRead

  datatype Decision = Keep | Update(target: Option<string>)

  const ATTEMPTS: nat := 20

  function PortText(n: nat): string
  {
    var digit := [(n % 10) as char + '0'];
    if n < 10 then digit else PortText(n / 10) + digit
  }

  /** The routable target a read yields: `address:port` of the first valid address. */
  function Usable(read: LocalRead, node: NodeState): Option<string>
  {
    match read
    case Unreadable => None
    case Local(address, port) =>
      if port.None? then None
      else
        var valid := NodeAddress.FirstValid(address, node.nodeAddress);
        if valid.None? then None else Some(valid.value + ":" + PortText(port.value))
  }

  /** The first usable read among the attempts from `i` on. */
  function FirstUsable(answers: Answers, node: NodeState, i: nat): Option<string>
    requires i <= ATTEMPTS
    decreases ATTEMPTS - i
  {
    if i == ATTEMPTS then None
    else if Usable(answers(i), node).Some? then Usable(answers(i), node)
    else FirstUsable(answers, node, i + 1)
  }

  /** The node whose local state decides: only a running, placed service on a known node has one. */
  function TargetNode(st: Service, nodes: seq<NodeState>): Option<NodeState>
  {
    if st.IsObserved(Running) && st.placement.Some? then FindNode(nodes, st.placement.value.nodeId) else None
  }

  ghost predicate AnyReadable(answers: Answers)
  {
    exists i: nat :: i < ATTEMPTS && answers(i) != Unreadable
  }

  /** `_resolve_target`: publish the first usable target; keep the file only when no read succeeded at all. */
  ghost function Decide(st: Service, nodes: seq<NodeState>, answers: Answers): Decision
  {
    var node := TargetNode(st, nodes);
    if node.None? then Update(None) else DecideByReads(answers, node.value)
  }

  ghost function DecideByReads(answers: Answers, node: NodeState): Decision
  {
    if FirstUsable(answers, node, 0).Some? then Update(FirstUsable(answers, node, 0))
    else if AnyReadable(answers) then Update(None)
    else Keep
  }

  const GENERATED := "# Generated by controller ingress manager. Do not edit manually."
  const ACTIVE := "# Active service: "

  /** `_render_upstream_file` */
  function Render(activeService: ServiceId, target: Option<string>): string
  {
    WithServerLine(GENERATED + "\n" + ACTIVE + activeService + "\n", target)
  }

  function WithServerLine(head: string, target: Option<string>): string
  {
    if target.None? then head else head + "server " + target.value + ";" + "\n"
  }

  /** The file after `sync_service` reached this decision. */
  function Synced(cfg: IngressSettings, file: string, s: ServiceId, decision: Decision): string
  {
    if !cfg.enabled || s != cfg.activeService || decision == Keep then file
    else Render(cfg.activeService, decision.target)
  }

  /** The event log after it: an entry exactly when the file changed. */
  function SyncLog(cfg: IngressSettings, file: string, s: ServiceId, decision: Decision, reloadOk: bool,
                   log: seq<StateStore.Event>, limit: nat): seq<StateStore.Event>
  {
    if Synced(cfg, file, s, decision) == file then log
    else if cfg.reloadEnabled && !reloadOk then StateStore.Pushed(log, StateStore.IngressReloadFailed(s), limit)
    else StateStore.Pushed(log, StateStore.IngressUpdated(s, decision.target.GetOr(cfg.unavailableTarget)), limit)
  }

  /** Repeating a sync with the same decision writes nothing and logs nothing. */
  lemma SyncIdempotent(cfg: IngressSettings, file: string, s: ServiceId, decision: Decision, reloadOk: bool,
                       log: seq<StateStore.Event>, limit: nat)
    ensures var once := Synced(cfg, file, s, decision);
            && Synced(cfg, once, s, decision) == once
            && SyncLog(cfg, once, s, decision, reloadOk, log, limit) == log
  {
  }

  /** Two targets are never rendered alike, so a changed target is always written. */
  lemma RenderInjective(activeService: ServiceId, a: Option<string>, b: Option<string>)
    ensures Render(activeService, a) == Render(activeService, b) <==> a == b
  {
    var head := GENERATED + "\n" + ACTIVE + activeService + "\n";
    ServerLineStripped(head, a);
    ServerLineStripped(head, b);
  }

  lemma ServerLineStripped(head: string, target: Option<string>)
    ensures target.Some? ==> |WithServerLine(head, target)| == |head| + 9 + |target.value|
    ensures target.Some? ==> WithServerLine(head, target)[|head| + 7..|head| + 7 + |target.value|] == target.value
  {
  }

  /** The file routes traffic to some target. */
  ghost predicate HasServerLine(cfg: IngressSettings, file: string)
  {
    exists target :: file == Render(cfg.activeService, Some(target))
  }

  // What is published, in terms of texts.

  function Digits(text: string): nat
    requires forall k :: 0 <= k < |text| ==> '0' <= text[k] <= '9'
  {
    if text == [] then 0 else Digits(text[..|text| - 1]) * 10 + (text[|text| - 1] - '0') as nat
  }

  /** The port is written in decimal digits, without leading zeros. */
  lemma {:induction false} PortTextMeaning(n: nat)
    ensures var text := PortText(n);
            && text != [] && (forall k :: 0 <= k < |text| ==> '0' <= text[k] <= '9') && Digits(text) == n
            && (text[0] == '0' ==> n == 0 && |text| == 1)
  {
    if n >= 10 {
      PortTextMeaning(n / 10);
      var front, last := PortText(n / 10), (n % 10) as char + '0';
      assert PortText(n) == front + [last] && (front + [last])[..|front|] == front;
    } else {
      assert PortText(n)[..0] == [];
    }
  }

  /** A read is usable exactly if the workload has a port and one of the two addresses is valid: the one the agent
      advertises, or failing that the one the controller has recorded. */
  lemma UsableMeaning(read: LocalRead, node: NodeState, target: string)
    ensures Usable(read, node) == Some(target) <==>
              && read.Local? && read.publishedPort.Some?
              && exists address ::
                   && (Accepted(read.nodeAddress, address)
                       || (Rejected(read.nodeAddress) && Accepted(node.nodeAddress, address)))
                   && target == address + ":" + PortText(read.publishedPort.value)
  {
    hide PortText, NodeAddress.Strip, NodeAddress.Lower;
    if read.Local? {
      AcceptedMeans(read.nodeAddress);
      AcceptedMeans(node.nodeAddress);
    }
  }

  /** The text holds this valid address, between blanks. */
  ghost predicate Accepted(value: string, address: string)
  {
    NodeAddress.Trimmed(value, address) && !NodeAddress.ReadsUnknown(address)
  }

  ghost predicate Rejected(value: string) { forall address :: !Accepted(value, address) }

  lemma AcceptedMeans(value: string)
    ensures forall a :: Accepted(value, a) <==> NodeAddress.Normalize(Some(value)) == Some(a)
    ensures Rejected(value) <==> NodeAddress.Normalize(Some(value)).None?
  {
    forall a ensures Accepted(value, a) <==> NodeAddress.Normalize(Some(value)) == Some(a) {
      NodeAddress.NormalizeMeaning(value, a);
    }
  }

  /** File and log after a sync: only an enabled sync of the active service writes, it writes exactly this text, and it
      logs exactly if the text is new. */
  lemma SyncMeaning(cfg: IngressSettings, file: string, s: ServiceId, decision: Decision, reloadOk: bool,
                    log: seq<StateStore.Event>, limit: nat)
    ensures var after := Synced(cfg, file, s, decision);
            && after == (if cfg.enabled && s == cfg.activeService && decision.Update? then
                           "# Generated by controller ingress manager. Do not edit manually.\n" +
                           "# Active service: " + s + "\n" +
                           (if decision.target.Some? then "server " + decision.target.value + ";\n" else "")
                         else file)
            && SyncLog(cfg, file, s, decision, reloadOk, log, limit) ==
                 if after == file then log
                 else StateStore.Pushed(log, if cfg.reloadEnabled && !reloadOk then StateStore.IngressReloadFailed(s)
                                             else StateStore.IngressUpdated(s, if decision.target.Some?
                                                                               then decision.target.value
                                                                               else cfg.unavailableTarget), limit)
  {
    if decision.Update? {
      var head := "# Generated by controller ingress manager. Do not edit manually.\n" + "# Active service: " + s
                  + "\n";
      assert Render(s, None) == head;
      if decision.target.Some? {
        var target := decision.target.value;
        assert head + "server " + target + ";" + "\n" == head + ("server " + target + ";\n");
      }
    }
  }

  // Safety over runs.

  /** A step with what the ingress manager finds if the step syncs: the node table and the agent's answers. */
  datatype SyncedStep = SyncedStep(step: Step, nodes: seq<NodeState>, answers: Answers)

  ghost function FileAfter(cfg: Settings, ing: IngressSettings, pick: Pick, st: Service, file: string,
                           x: SyncedStep): string
  {
    var out := Apply(cfg, pick, st, x.step);
    if Syncs(out.effects) then Synced(ing, file, st.id, Decide(out, x.nodes, x.answers)) else file
  }

  ghost predicate FileSafe(ing: IngressSettings, file: string, st: Service)
  {
    HasServerLine(ing, file) ==> st.IsObserved(Running)
  }

  /** Every handler that takes a service out of `running` syncs the ingress before it returns. */
  lemma LeavingRunningSyncs(cfg: Settings, pick: Pick, before: Service, step: Step)
    requires before.IsObserved(Running) && !Syncs(Apply(cfg, pick, before, step).effects)
    ensures Apply(cfg, pick, before, step).IsObserved(Running)
  {
    hide FindNode, WithoutNode, OnCrash, OnHealth;
    var st := before.(effects := []);
    match step
    case CrashStep(r, env) => CrashSyncs(cfg, pick, st, r, env);
    case HealthStep(r, env) => HealthSyncs(cfg, pick, st, r, env);
    case UnreachableStep(_, _, _) =>
    case DeployStep(_, _, _) =>
    case StopStep(_, _) =>
    case RestartStep(_, _) =>
    case RetryStep(_, _) =>
  }

  lemma CrashSyncs(cfg: Settings, pick: Pick, st: Service, r: CrashReport, env: Environment)
    requires st.IsObserved(Running) && !Syncs(OnCrash(cfg, pick, st, r, env).effects)
    ensures OnCrash(cfg, pick, st, r, env).IsObserved(Running)
  {
    hide RestartSameNode, RescheduleExhausted, FindNode;
    if ReportIsCurrent(st, r.nodeId, r.generation) {
      var current := st.placement.value.nodeId;
      var marked := st.(activeRecovery := Some(st.generation), restarts := st.restarts + 1)
                      .Observe(st.observed.value.(health := IsUnhealthy, lastReportedAt := r.occurredAt));
      RecoverySyncs(cfg, pick, marked, current, r.occurredAt, env);
    }
  }

  lemma HealthSyncs(cfg: Settings, pick: Pick, st: Service, r: HealthReport, env: Environment)
    requires st.IsObserved(Running) && !Syncs(OnHealth(cfg, pick, st, r, env).effects)
    ensures OnHealth(cfg, pick, st, r, env).IsObserved(Running)
  {
    hide RestartSameNode, RescheduleExhausted, FindNode;
    if ReportIsCurrent(st, r.nodeId, r.generation) && !r.healthy {
      var current := st.placement.value.nodeId;
      var counted := st.(activeRecovery := Some(st.generation), restarts := st.restarts + 1)
                       .Observe(st.observed.value.(health := IsUnhealthy, lastReportedAt := r.observedAt));
      RecoverySyncs(cfg, pick, counted, current, r.observedAt, env);
    }
  }

  lemma RecoverySyncs(cfg: Settings, pick: Pick, st: Service, current: NodeId, at: Time, env: Environment)
    requires st.IsObserved(Running) && st.desired.Some?
    ensures var out := RestartSameNode(cfg, st, current, at, env);
            !Syncs(out.effects) ==> out.IsObserved(Running)
    ensures Syncs(RescheduleExhausted(cfg, pick, st, current, at, env).effects)
  {
    hide FindNode, WithoutNode, MovedTo;
  }

  /** A sync leaves no server line unless the service is running. */
  lemma SyncIsSafe(ing: IngressSettings, file: string, st: Service, nodes: seq<NodeState>, answers: Answers)
    requires ing.enabled && st.id == ing.activeService
    ensures FileSafe(ing, Synced(ing, file, st.id, Decide(st, nodes, answers)), st)
  {
    if !st.IsObserved(Running) {
      forall target ensures Render(ing.activeService, None) != Render(ing.activeService, Some(target)) {
        RenderInjective(ing.activeService, None, Some(target));
      }
    }
  }

  lemma StepKeepsFileSafe(cfg: Settings, ing: IngressSettings, pick: Pick, st: Service, file: string, x: SyncedStep)
    requires ing.enabled && st.id == ing.activeService && FileSafe(ing, file, st)
    ensures FileSafe(ing, FileAfter(cfg, ing, pick, st, file, x), Apply(cfg, pick, st, x.step))
  {
    hide Apply, Decide, Synced, HasServerLine;
    var out := Apply(cfg, pick, st, x.step);
    StepKeepsId(cfg, pick, st, x.step);
    if Syncs(out.effects) {
      SyncIsSafe(ing, file, out, x.nodes, x.answers);
    } else if st.IsObserved(Running) {
      LeavingRunningSyncs(cfg, pick, st, x.step);
    } else {
      NotSyncingKeepsFile(cfg, ing, pick, st, file, x);
    }
  }

  lemma NotSyncingKeepsFile(cfg: Settings, ing: IngressSettings, pick: Pick, st: Service, file: string, x: SyncedStep)
    requires !Syncs(Apply(cfg, pick, st, x.step).effects)
    ensures FileAfter(cfg, ing, pick, st, file, x) == file
  {
  }

  ghost function RunWithFile(cfg: Settings, ing: IngressSettings, pick: Pick, st: Service, file: string,
                             xs: seq<SyncedStep>): (Service, string)
    decreases |xs|
  {
    if xs == [] then (st, file)
    else RunWithFile(cfg, ing, pick, Apply(cfg, pick, st, xs[0].step), FileAfter(cfg, ing, pick, st, file, xs[0]),
                     xs[1..])
  }

  /** At every handler boundary of every run of the active service that starts from an empty file, the file has a
      server line only if the service is observed running. */
  lemma {:induction false} IngressSafety(cfg: Settings, ing: IngressSettings, pick: Pick, st: Service, file: string,
                                         xs: seq<SyncedStep>)
    requires ing.enabled && st.id == ing.activeService && (file == "" || FileSafe(ing, file, st))
    ensures var (end, written) := RunWithFile(cfg, ing, pick, st, file, xs);
            FileSafe(ing, written, end)
    decreases |xs|
  {
    hide Apply, FileAfter;
    if xs != [] {
      StepKeepsId(cfg, pick, st, xs[0].step);
      StepKeepsFileSafe(cfg, ing, pick, st, file, xs[0]);
      IngressSafety(cfg, ing, pick, Apply(cfg, pick, st, xs[0].step), FileAfter(cfg, ing, pick, st, file, xs[0]),
                    xs[1..]);
    }
  }

  /** What the decision means: the first usable one of 20 reads of a running service placed on a known node is
      published; the file is kept only when such a service's agent cannot be read at all. */
  lemma DecisionMeaning(st: Service, nodes: seq<NodeState>, answers: Answers)
    ensures var node := if st.observed.Some? && st.observed.value.status == Running && st.placement.Some?
                        then FindNode(nodes, st.placement.value.nodeId) else None;
            && (forall t :: Decide(st, nodes, answers) == Update(Some(t)) <==>
                  && node.Some?
                  && exists j: nat :: j < 20 && Usable(answers(j), node.value) == Some(t)
                                      && forall i: nat :: i < j ==> Usable(answers(i), node.value).None?)
            && (Decide(st, nodes, answers) == Keep <==>
                  node.Some? && forall j: nat :: j < 20 ==> answers(j) == Unreadable)
  {
    var node := TargetNode(st, nodes);
    if node.Some? {
      FirstUsableMeaning(answers, node.value, 0);
    }
  }

  lemma {:induction false} FirstUsableMeaning(answers: Answers, node: NodeState, i: nat)
    requires i <= ATTEMPTS
    ensures FirstUsable(answers, node, i).None? <==> forall j: nat :: i <= j < ATTEMPTS ==>
      Usable(answers(j), node).None?
    ensures FirstUsable(answers, node, i).Some? ==> exists j: nat ::
              && i <= j < ATTEMPTS && Usable(answers(j), node) == FirstUsable(answers, node, i)
              && forall k: nat :: i <= k < j ==> Usable(answers(k), node).None?
    decreases ATTEMPTS - i
  {
    if i < ATTEMPTS {
      FirstUsableMeaning(answers, node, i + 1);
      if Usable(answers(i), node).None? && FirstUsable(answers, node, i).Some? {
        var j: nat :| i + 1 <= j < ATTEMPTS && Usable(answers(j), node) == FirstUsable(answers, node, i + 1)
                      && forall k: nat :: i + 1 <= k < j ==> Usable(answers(k), node).None?;
        assert forall k: nat :: i <= k < j ==> Usable(answers(k), node).None?;
      }
    }
  }

  class IngressManager {
    const settings: IngressSettings
    const store: StateStore.InMemoryStateStore
    var file: string  // the upstream file; empty while it does not exist

    constructor (settings: IngressSettings, store: StateStore.InMemoryStateStore)
      ensures this.settings == settings && this.store == store && file == ""
    {
      this.settings, this.store, this.file := settings, store, "";
    }

    method ResolveTarget(s: ServiceId, answers: Answers) returns (decision: Decision)
      ensures decision == Decide(store.Record(s), Listed(store.nodes), answers)
    {
      hide Listed, FindNode, DecideByReads;
      if s !in store.observed || store.observed[s].status != Running || s !in store.placement {
        return Update(None);
      }
      var nodes := store.ListNodes();
      var node := FindNode(nodes, store.placement[s].nodeId);
      if node.None? {
        return Update(None);
      }
      decision := ReadTarget(node.value, answers);
    }

    method ReadTarget(node: NodeState, answers: Answers) returns (decision: Decision)
      ensures decision == DecideByReads(answers, node)
    {
      var readSucceeded := false;
      for i := 0 to ATTEMPTS
        invariant FirstUsable(answers, node, 0) == FirstUsable(answers, node, i)
        invariant readSucceeded <==> exists j: nat :: j < i && answers(j) != Unreadable
      {
        var answer := answers(i);
        if answer == Unreadable {
          continue;
        }
        readSucceeded := true;
        assert answers(i as nat) != Unreadable;
        var target := Usable(answer, node);
        if target.None? {
          continue;
        }
        return Update(target);
      }
      decision := if readSucceeded then Update(None) else Keep;
    }

    method WriteUpstreamConfig(target: Option<string>) returns (changed: bool)
      modifies this`file
      ensures file == Render(settings.activeService, target)
      ensures changed == (file != old(file))
    {
      var content := Render(settings.activeService, target);
      if file == content {
        return false;
      }
      file := content;
      changed := true;
    }

    method SyncService(s: ServiceId, answers: Answers, reloadOk: bool)
      modifies this`file, store`events
      ensures var decision := Decide(store.Record(s), Listed(store.nodes), answers);
              && file == Synced(settings, old(file), s, decision)
              && store.events == SyncLog(settings, old(file), s, decision, reloadOk, old(store.events), store.logLimit)
      ensures (old(store.Valid()) ==> store.Valid()) && forall x :: store.Record(x) == old(store.Record(x))
    {
      hide Render, Decide;
      if !settings.enabled {
        return;
      }
      if s != settings.activeService {
        return;
      }
      var decision := ResolveTarget(s, answers);
      if decision == Keep {
        return;
      }
      var changed := WriteUpstreamConfig(decision.target);
      if !changed {
        return;
      }
      if settings.reloadEnabled && !reloadOk {
        store.AppendEvent(StateStore.IngressReloadFailed(s));
        return;
      }
      store.AppendEvent(StateStore.IngressUpdated(s, decision.target.GetOr(settings.unavailableTarget)));
    }
  }
}
