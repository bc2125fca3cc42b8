// The agent: its workload table, the published-port allocator (an open-addressing table keyed by a hash of the
// service id) and the health-failure counter (agent/app/core/state.py, agent/app/services/workload_manager.py).

module Ports {
  import opened Models

  /** The port at the given offset of a service's probe sequence. */
  function Probe(hash: nat, base: int, span: int, offset: nat): int
    requires span > 0
  {
    base + (hash % span + offset) % span
  }

  /** The first free port of the probe sequence from the given offset on. */
  function FirstFree(hash: nat, base: int, span: int, used: set<int>, offset: nat): Option<int>
    requires span > 0 && offset <= span
    decreases span - offset
  {
    if offset == span then None
    else if Probe(hash, base, span, offset) !in used then Some(Probe(hash, base, span, offset))
    else FirstFree(hash, base, span, used, offset + 1)
  }

  /** The offset at which a port is probed. */
  function OffsetOf(hash: nat, base: int, span: int, port: int): nat
    requires span > 0 && base <= port < base + span
  {
    if port - base >= hash % span then port - base - hash % span else port - base - hash % span + span
  }

  /** The probe sequence visits every port of the range exactly once. */
  lemma ProbesEveryPortOnce(hash: nat, base: int, span: int, offset: nat, port: int)
    requires span > 0 && offset < span
    ensures base <= Probe(hash, base, span, offset) < base + span
    ensures base <= port < base + span ==>
      (Probe(hash, base, span, offset) == port <==> offset == OffsetOf(hash, base, span, port))
  {
    var h := hash % span;
    if h + offset < span {
      assert (h + offset) % span == h + offset;
    } else {
      assert (h + offset - span) % span == h + offset - span;
      AddSpan(h + offset - span, span);
    }
  }

  /** The first probe is the hash's own place in the range, and each further one is the next port, with the first port
      of the range after the last. */
  lemma ProbesAreCyclic(hash: nat, base: int, span: int, offset: nat)
    requires span > 0 && offset + 1 < span
    ensures Probe(hash, base, span, 0) == base + hash % span
    ensures Probe(hash, base, span, offset + 1) ==
            if Probe(hash, base, span, offset) == base + span - 1 then base else Probe(hash, base, span, offset) + 1
  {
    var h := hash % span;
    OnceAround(h, span);
    OnceAround(h + offset, span);
    OnceAround(h + offset + 1, span);
  }

  lemma OnceAround(x: nat, span: int)
    requires span > 0 && x < 2 * span
    ensures x % span == if x < span then x else x - span
  {
    if x >= span { AddSpan(x - span, span); }
  }

  lemma AddSpan(x: int, span: int)
    requires span > 0 && 0 <= x < span
    ensures (x + span) % span == x
  {
  }

  /** The probe at k is free, and every earlier one from the given offset on is taken. */
  ghost predicate FirstFreeAt(hash: nat, base: int, span: int, used: set<int>, from: nat, k: nat)
    requires span > 0
  {
    && from <= k < span && Probe(hash, base, span, k) !in used
    && forall j: nat :: from <= j < k ==> Probe(hash, base, span, j) in used
  }

  /** Allocation yields the first free port of the cyclic order, and fails only when all ports are used. */
  lemma {:induction false} FirstFreeMeaning(hash: nat, base: int, span: int, used: set<int>, from: nat)
    requires span > 0 && from <= span
    ensures var r := FirstFree(hash, base, span, used, from);
            && (r.None? <==> forall k: nat :: from <= k < span ==> Probe(hash, base, span, k) in used)
            && (r.Some? ==> exists k: nat ::
                  FirstFreeAt(hash, base, span, used, from, k) && Probe(hash, base, span, k) == r.value)
            && (forall k: nat :: FirstFreeAt(hash, base, span, used, from, k) ==> r == Some(Probe(hash, base, span, k)))
    decreases span - from
  {
    if from < span {
      FirstFreeMeaning(hash, base, span, used, from + 1);
      if Probe(hash, base, span, from) in used {
        assert forall k: nat :: FirstFreeAt(hash, base, span, used, from, k) ==>
            FirstFreeAt(hash, base, span, used, from + 1, k);
        assert forall k: nat :: FirstFreeAt(hash, base, span, used, from + 1, k) ==>
            FirstFreeAt(hash, base, span, used, from, k);
      } else {
        assert FirstFreeAt(hash, base, span, used, from, from);
        assert forall k: nat :: FirstFreeAt(hash, base, span, used, from, k) ==> k == from;
      }
    }
  }
}

module Workloads {
  import opened Models
  import opened Ports
  import opened NodeTable

  datatype WorkloadStatus = WorkloadRunning | WorkloadStopped | WorkloadPending | WorkloadUnhealthy

  /** A workload record; its timestamps are not part of this model. */
  datatype Workload = Workload(
    service: ServiceSpec,
    containerId: Option<string>,
    publishedPort: Option<int>,
    containerIp: Option<string>,
    status: WorkloadStatus,
    healthFailures: nat)

  /** What the container runtime says about a container. */
  datatype Container = Container(containerId: string, containerIp: Option<string>, publishedPort: Option<int>)

  datatype AgentSettings = AgentSettings(portBase: int, portMax: int, healthCheckRetries: nat)
  {
    function Span(): int { portMax - portBase + 1 }
  }

  type Table = map<ServiceId, Workload>

  type Hash = ServiceId -> nat

  /** The ports recorded for other services. */
  function UsedByOthers(table: Table, s: ServiceId): set<int>
  {
    set r | r in table && r != s && table[r].publishedPort.Some? :: table[r].publishedPort.value
  }

  /** `_ensure_published_port`: none where the source raises ValueError. */
  function EnsuredPort(cfg: AgentSettings, hash: Hash, table: Table, service: ServiceSpec): Option<int>
  {
    if service.publishedPort.Some? then service.publishedPort
    else if cfg.Span() <= 0 then None
    else FirstFree(hash(service.serviceId), cfg.portBase, cfg.Span(), UsedByOthers(table, service.serviceId), 0)
  }

  /** The running container the agent recorded is still the one the runtime knows. */
  predicate AlreadyRunning(current: Option<Workload>, existing: Option<Container>)
  {
    && current.Some? && current.value.status == WorkloadRunning
    && current.value.containerId.Some? && existing.Some?
    && existing.value.containerId == current.value.containerId.value
  }

  /** `deploy`: `created` is what the runtime reports for the new container, none where it raises. */
  function DeployTable(cfg: AgentSettings, hash: Hash, table: Table, service: ServiceSpec,
                       existing: Option<Container>, created: Option<Container>): Table
  {
    var port := EnsuredPort(cfg, hash, table, service);
    if port.None? then table
    else if AlreadyRunning(Lookup(table, service.serviceId), existing) then table
    else if created.None? then table
    else
      table[service.serviceId := Workload(service.(publishedPort := port), Some(created.value.containerId),
                                          created.value.publishedPort, created.value.containerIp, WorkloadRunning, 0)]
  }

  function StopTable(table: Table, s: ServiceId, ok: bool): Table
  {
    if s in table && ok then table[s := table[s].(status := WorkloadStopped, healthFailures := 0)] else table
  }

  function RestartTable(table: Table, s: ServiceId, ok: bool): Table
  {
    if s in table && ok then table[s := table[s].(status := WorkloadRunning, healthFailures := 0)] else table
  }

  /** The probes of one health check: `responses(i)` tells whether the i-th request is answered with success. */
  type Responses = nat -> bool

  ghost predicate Answers(responses: Responses, retries: nat)
  {
    exists i: nat :: i < retries && responses(i)
  }

  predicate IsChecked(w: Workload) { w.status == WorkloadRunning || w.status == WorkloadUnhealthy }

  function ResolvedIp(w: Workload, inspected: Option<Container>): Option<string>
  {
    if w.containerIp.Some? then w.containerIp
    else if inspected.Some? then inspected.value.containerIp else None
  }

  /** One workload after `health_check_all` looked at it. */
  ghost function Checked(cfg: AgentSettings, w: Workload, inspected: Option<Container>, responses: Responses): Workload
  {
    var ip := ResolvedIp(w, inspected);
    if !IsChecked(w) || ip.None? then w
    else if Answers(responses, cfg.healthCheckRetries) then
      w.(containerIp := ip, status := WorkloadRunning, healthFailures := 0)
    else
      w.(containerIp := ip, status := WorkloadUnhealthy, healthFailures := w.healthFailures + 1)
  }

  /** The report sent for it, if it was checked at all. */
  ghost function ReportFor(cfg: AgentSettings, w: Workload, inspected: Option<Container>,
                           responses: Responses): Option<(bool, nat)>
  {
    if !IsChecked(w) || ResolvedIp(w, inspected).None? then None
    else Some((Answers(responses, cfg.healthCheckRetries), Checked(cfg, w, inspected, responses).healthFailures))
  }

  // The port table over histories.

  /** What happened to the table: deployments ask for an automatic port and the runtime publishes what is asked. */
  datatype TableEvent =
    | Deployed(service: ServiceSpec, existing: Option<Container>, containerId: string, containerIp: Option<string>)
    | DeployRaised(service: ServiceSpec)
    | StoppedService(serviceId: ServiceId, ok: bool)
    | RestartedService(serviceId: ServiceId, ok: bool)
    | HealthChecked(serviceId: ServiceId, inspected: Option<Container>, responses: Responses)

  ghost function TableStep(cfg: AgentSettings, hash: Hash, table: Table, e: TableEvent): Table
  {
    match e
    case Deployed(service, existing, id, ip) =>
      DeployTable(cfg, hash, table, service, existing,
                  Some(Container(id, ip, EnsuredPort(cfg, hash, table, service))))
    case DeployRaised(service) => DeployTable(cfg, hash, table, service, None, None)
    case StoppedService(s, ok) => StopTable(table, s, ok)
    case RestartedService(s, ok) => RestartTable(table, s, ok)
    case HealthChecked(s, inspected, responses) =>
      if s in table then table[s := Checked(cfg, table[s], inspected, responses)] else table
  }

  predicate AutoPort(e: TableEvent) { e.Deployed? ==> e.service.publishedPort.None? }

  ghost function TableRun(cfg: AgentSettings, hash: Hash, table: Table, es: seq<TableEvent>): Table
  {
    if es == [] then table else TableStep(cfg, hash, TableRun(cfg, hash, table, es[..|es| - 1]), es[|es| - 1])
  }

  /** The invariant of linear probing: ports are distinct and in range, and every port that precedes a service's own in
      its probe sequence is held by another service. */
  ghost predicate Probing(cfg: AgentSettings, hash: Hash, table: Table)
    requires cfg.Span() > 0
  {
    && (forall s :: s in table ==> table[s].publishedPort.Some?)
    && (forall s :: s in table ==> FirstFreeOf(cfg, hash, table, s, table[s].publishedPort.value))
    && (forall r, s :: r in table && s in table && r != s ==> table[r].publishedPort != table[s].publishedPort)
  }

  ghost predicate FirstFreeOf(cfg: AgentSettings, hash: Hash, table: Table, s: ServiceId, port: int)
    requires cfg.Span() > 0
  {
    exists k: nat ::
      && FirstFreeAt(hash(s), cfg.portBase, cfg.Span(), UsedByOthers(table, s), 0, k)
      && Probe(hash(s), cfg.portBase, cfg.Span(), k) == port
  }

  lemma AllocationIsFirstFree(cfg: AgentSettings, hash: Hash, table: Table, service: ServiceSpec)
    requires cfg.Span() > 0 && service.publishedPort.None?
    ensures var r := EnsuredPort(cfg, hash, table, service);
            && (r.Some? ==> FirstFreeOf(cfg, hash, table, service.serviceId, r.value))
            && (forall p :: FirstFreeOf(cfg, hash, table, service.serviceId, p) ==> r == Some(p))
  {
    FirstFreeMeaning(hash(service.serviceId), cfg.portBase, cfg.Span(), UsedByOthers(table, service.serviceId), 0);
  }

  /** Another service holds the port. */
  ghost predicate Held(table: Table, s: ServiceId, port: int)
  {
    exists r :: r in table && r != s && table[r].publishedPort == Some(port)
  }

  ghost predicate FirstUnheld(cfg: AgentSettings, hash: Hash, table: Table, s: ServiceId, k: nat)
    requires cfg.Span() > 0
  {
    && k < cfg.Span() && !Held(table, s, Probe(hash(s), cfg.portBase, cfg.Span(), k))
    && forall j: nat :: j < k ==> Held(table, s, Probe(hash(s), cfg.portBase, cfg.Span(), j))
  }

  /** A named port is taken as it is; otherwise the service gets the first port of its probe sequence that no other
      workload holds, if the range is not empty and has one. */
  lemma AllocationMeaning(cfg: AgentSettings, hash: Hash, table: Table, service: ServiceSpec, port: int)
    ensures EnsuredPort(cfg, hash, table, service) == Some(port) <==>
              if service.publishedPort.Some? then service.publishedPort == Some(port)
              else && cfg.portBase <= cfg.portMax
                   && exists k: nat :: FirstUnheld(cfg, hash, table, service.serviceId, k)
                                       && port == Probe(hash(service.serviceId), cfg.portBase, cfg.Span(), k)
  {
    hide Probe, UsedByOthers, FirstFree;
    var s := service.serviceId;
    forall p ensures p in UsedByOthers(table, s) <==> Held(table, s, p) { HeldMeans(table, s, p); }
    if service.publishedPort.None? && cfg.Span() > 0 {
      FirstFreeMeaning(hash(s), cfg.portBase, cfg.Span(), UsedByOthers(table, s), 0);
      forall k: nat ensures FirstUnheld(cfg, hash, table, s, k) <==>
        FirstFreeAt(hash(s), cfg.portBase, cfg.Span(), UsedByOthers(table, s), 0, k) {}
    }
  }

  lemma HeldMeans(table: Table, s: ServiceId, port: int)
    ensures port in UsedByOthers(table, s) <==> Held(table, s, port)
  {
  }

  /** Redeploying a recorded service asks for the port it already has. */
  lemma RedeployKeepsPort(cfg: AgentSettings, hash: Hash, table: Table, service: ServiceSpec)
    requires cfg.Span() > 0 && Probing(cfg, hash, table) && service.publishedPort.None? && service.serviceId in table
    ensures table[service.serviceId].publishedPort.Some?
    ensures EnsuredPort(cfg, hash, table, service) == table[service.serviceId].publishedPort
  {
    AllocationIsFirstFree(cfg, hash, table, service);
  }

  lemma OwnPortIsNotOthers(table: Table, s: ServiceId, w: Workload)
    ensures UsedByOthers(table[s := w], s) == UsedByOthers(table, s)
  {
    forall p | p in UsedByOthers(table[s := w], s) ensures p in UsedByOthers(table, s) {
      var q :| q in table[s := w] && q != s && table[s := w][q].publishedPort == Some(p);
      assert q in table && table[q].publishedPort == Some(p);
    }
    forall p | p in UsedByOthers(table, s) ensures p in UsedByOthers(table[s := w], s) {
      var q :| q in table && q != s && table[q].publishedPort == Some(p);
      assert table[s := w][q].publishedPort == Some(p);
    }
  }

  /** A service that keeps its port, or joins the table, frees no port that another service sees as used. */
  lemma UsedPortsGrow(table: Table, s: ServiceId, w: Workload, r: ServiceId)
    requires s in table ==> w.publishedPort == table[s].publishedPort
    ensures UsedByOthers(table, r) <= UsedByOthers(table[s := w], r)
  {
    forall p | p in UsedByOthers(table, r) ensures p in UsedByOthers(table[s := w], r) {
      var q :| q in table && q != r && table[q].publishedPort == Some(p);
      assert table[s := w][q].publishedPort == Some(p);
    }
  }

  /** A first free port stays one when more ports are used, as long as it is itself still free. */
  lemma StaysFirstFree(cfg: AgentSettings, hash: Hash, before: Table, after: Table, r: ServiceId, port: int)
    requires cfg.Span() > 0 && FirstFreeOf(cfg, hash, before, r, port)
    requires UsedByOthers(before, r) <= UsedByOthers(after, r) && port !in UsedByOthers(after, r)
    ensures FirstFreeOf(cfg, hash, after, r, port)
  {
    hide Probe, UsedByOthers;
    var k: nat :| FirstFreeAt(hash(r), cfg.portBase, cfg.Span(), UsedByOthers(before, r), 0, k)
                  && Probe(hash(r), cfg.portBase, cfg.Span(), k) == port;
    assert FirstFreeAt(hash(r), cfg.portBase, cfg.Span(), UsedByOthers(after, r), 0, k);
  }

  lemma FirstFreeIsUnused(cfg: AgentSettings, hash: Hash, table: Table, s: ServiceId, port: int)
    requires cfg.Span() > 0 && FirstFreeOf(cfg, hash, table, s, port)
    ensures port !in UsedByOthers(table, s)
  {
    hide Probe, UsedByOthers;
  }

  /** A service that takes its first free port keeps the invariant. */
  lemma TakingAPortKeepsProbing(cfg: AgentSettings, hash: Hash, table: Table, s: ServiceId, w: Workload)
    requires cfg.Span() > 0 && Probing(cfg, hash, table) && w.publishedPort.Some?
    requires FirstFreeOf(cfg, hash, table, s, w.publishedPort.value)
    ensures Probing(cfg, hash, table[s := w])
  {
    hide FirstFreeOf;
    var after := table[s := w];
    FirstFreeIsUnused(cfg, hash, table, s, w.publishedPort.value);
    if s in table {
      SamePort(cfg, hash, table, s, w.publishedPort.value);
    }
    assert forall q, r :: q in after && r in after && q != r ==> after[q].publishedPort != after[r].publishedPort;
    forall r | r in after ensures FirstFreeOf(cfg, hash, after, r, after[r].publishedPort.value) {
      UsedPortsGrow(table, s, w, r);
      OwnPortIsNotOthers(table, s, w);
      assert after[r].publishedPort.value !in UsedByOthers(after, r);
      StaysFirstFree(cfg, hash, table, after, r, after[r].publishedPort.value);
    }
  }

  /** A service's first free port is unique, so a recorded service can only take its own again. */
  lemma SamePort(cfg: AgentSettings, hash: Hash, table: Table, s: ServiceId, port: int)
    requires cfg.Span() > 0 && s in table && Probing(cfg, hash, table) && FirstFreeOf(cfg, hash, table, s, port)
    ensures table[s].publishedPort == Some(port)
  {
    FirstFreeMeaning(hash(s), cfg.portBase, cfg.Span(), UsedByOthers(table, s), 0);
  }

  /** Changing anything but the port of a recorded service keeps the invariant. */
  lemma OtherFieldsKeepProbing(cfg: AgentSettings, hash: Hash, table: Table, s: ServiceId, w: Workload)
    requires cfg.Span() > 0 && Probing(cfg, hash, table) && s in table && w.publishedPort == table[s].publishedPort
    ensures Probing(cfg, hash, table[s := w])
  {
    TakingAPortKeepsProbing(cfg, hash, table, s, w);
  }

  /** Over any history of automatic deployments, stops, restarts and health checks, the table stays a linear-probing
      table: distinct ports in range, no gap before any service's port. */
  lemma {:induction false} HistoryKeepsProbing(cfg: AgentSettings, hash: Hash, es: seq<TableEvent>)
    requires cfg.Span() > 0 && forall i :: 0 <= i < |es| ==> AutoPort(es[i])
    ensures Probing(cfg, hash, TableRun(cfg, hash, map[], es))
  {
    if es != [] {
      HistoryKeepsProbing(cfg, hash, es[..|es| - 1]);
      var table := TableRun(cfg, hash, map[], es[..|es| - 1]);
      StepKeepsProbing(cfg, hash, table, es[|es| - 1]);
    }
  }

  lemma StepKeepsProbing(cfg: AgentSettings, hash: Hash, table: Table, e: TableEvent)
    requires cfg.Span() > 0 && Probing(cfg, hash, table) && AutoPort(e)
    ensures Probing(cfg, hash, TableStep(cfg, hash, table, e))
  {
    hide Probing, FirstFreeOf, Probe, FirstFree;
    match e
    case Deployed(service, existing, id, ip) =>
      AllocationIsFirstFree(cfg, hash, table, service);
      var port := EnsuredPort(cfg, hash, table, service);
      if port.Some? {
        TakingAPortKeepsProbing(cfg, hash, table, service.serviceId,
          Workload(service.(publishedPort := port), Some(id), port, ip, WorkloadRunning, 0));
      }
    case DeployRaised(_) =>
    case StoppedService(s, ok) =>
      if s in table {
        OtherFieldsKeepProbing(cfg, hash, table, s, table[s].(status := WorkloadStopped, healthFailures := 0));
      }
    case RestartedService(s, ok) =>
      if s in table {
        OtherFieldsKeepProbing(cfg, hash, table, s, table[s].(status := WorkloadRunning, healthFailures := 0));
      }
    case HealthChecked(s, inspected, responses) =>
      if s in table { OtherFieldsKeepProbing(cfg, hash, table, s, Checked(cfg, table[s], inspected, responses)); }
  }

  lemma PortsInRange(cfg: AgentSettings, hash: Hash, table: Table, s: ServiceId)
    requires cfg.Span() > 0 && Probing(cfg, hash, table) && s in table
    ensures table[s].publishedPort.Some? && cfg.portBase <= table[s].publishedPort.value <= cfg.portMax
  {
    var k: nat :| FirstFreeAt(hash(s), cfg.portBase, cfg.Span(), UsedByOthers(table, s), 0, k)
                  && Probe(hash(s), cfg.portBase, cfg.Span(), k) == table[s].publishedPort.value;
    ProbesEveryPortOnce(hash(s), cfg.portBase, cfg.Span(), k, 0);
  }

  // Capacity.

  function PortRange(base: int, n: nat): (r: set<int>)
    ensures |r| == n && forall p :: p in r <==> base <= p < base + n
  {
    if n == 0 then {} else PortRange(base, n - 1) + {base + n - 1}
  }

  function PortsOf(table: Table, services: set<ServiceId>): set<int>
  {
    set r | r in services && r in table && table[r].publishedPort.Some? :: table[r].publishedPort.value
  }

  /** Distinct ports are as many as the services that hold them. */
  lemma {:induction false} DistinctPortsCount(table: Table, services: set<ServiceId>)
    requires services <= table.Keys && forall r :: r in services ==> table[r].publishedPort.Some?
    requires forall q, r :: q in services && r in services && q != r ==>
      table[q].publishedPort != table[r].publishedPort
    ensures |PortsOf(table, services)| == |services|
    decreases |services|
  {
    if services == {} {
      assert PortsOf(table, services) == {};
    } else {
      var r :| r in services;
      var port := table[r].publishedPort.value;
      DistinctPortsCount(table, services - {r});
      assert PortsOf(table, services) == PortsOf(table, services - {r}) + {port} by {
        forall p | p in PortsOf(table, services) ensures p in PortsOf(table, services - {r}) + {port} {
          var q :| q in services && table[q].publishedPort == Some(p);
          assert q == r || q in services - {r};
        }
      }
      assert port !in PortsOf(table, services - {r});
    }
  }

  /** Allocation raises exactly when as many other workloads are recorded as the range has ports; and then the service
      itself is a new one. */
  lemma FailsExactlyWhenFull(cfg: AgentSettings, hash: Hash, table: Table, service: ServiceSpec)
    requires cfg.Span() > 0 && Probing(cfg, hash, table) && service.publishedPort.None?
    ensures |table.Keys - {service.serviceId}| <= cfg.Span()
    ensures EnsuredPort(cfg, hash, table, service).None? <==> |table.Keys - {service.serviceId}| == cfg.Span()
    ensures EnsuredPort(cfg, hash, table, service).None? ==> service.serviceId !in table
  {
    hide Probing, UsedByOthers, FirstFree, PortRange;
    var s := service.serviceId;
    var range := PortRange(cfg.portBase, cfg.Span());
    UsedPortsCount(cfg, hash, table, s);
    UsedWithinRange(cfg, hash, table, s);
    Subset(UsedByOthers(table, s), range);
    AllTaken(cfg, hash(s), UsedByOthers(table, s));
    if s in table { RedeployKeepsPort(cfg, hash, table, service); }
  }

  lemma UsedPortsCount(cfg: AgentSettings, hash: Hash, table: Table, s: ServiceId)
    requires cfg.Span() > 0 && Probing(cfg, hash, table)
    ensures |UsedByOthers(table, s)| == |table.Keys - {s}|
  {
    hide FirstFreeOf;
    DistinctPortsCount(table, table.Keys - {s});
    assert UsedByOthers(table, s) == PortsOf(table, table.Keys - {s});
  }

  lemma UsedWithinRange(cfg: AgentSettings, hash: Hash, table: Table, s: ServiceId)
    requires cfg.Span() > 0 && Probing(cfg, hash, table)
    ensures UsedByOthers(table, s) <= PortRange(cfg.portBase, cfg.Span())
  {
    forall p | p in UsedByOthers(table, s) ensures p in PortRange(cfg.portBase, cfg.Span()) {
      var r :| r in table && r != s && table[r].publishedPort == Some(p);
      PortsInRange(cfg, hash, table, r);
    }
  }

  lemma Subset(a: set<int>, b: set<int>)
    requires a <= b
    ensures |a| <= |b| && (|a| == |b| <==> a == b)
  {
    var rest := b - a;
    assert b == a + rest;
    assert |b| == |a| + |rest|;
  }

  /** No probe finds a free port exactly when every port of the range is used. */
  lemma AllTaken(cfg: AgentSettings, hash: nat, used: set<int>)
    requires cfg.Span() > 0
    ensures FirstFree(hash, cfg.portBase, cfg.Span(), used, 0).None? <==> PortRange(cfg.portBase, cfg.Span()) <= used
  {
    var base, span := cfg.portBase, cfg.Span();
    FirstFreeMeaning(hash, base, span, used, 0);
    if forall k: nat :: 0 <= k < span ==> Probe(hash, base, span, k) in used {
      forall p | p in PortRange(base, span) ensures p in used {
        ProbesEveryPortOnce(hash, base, span, OffsetOf(hash, base, span, p), p);
      }
    } else {
      var k: nat :| k < span && Probe(hash, base, span, k) !in used;
      ProbesEveryPortOnce(hash, base, span, k, base);
      assert Probe(hash, base, span, k) in PortRange(base, span);
    }
  }

  /** A deployment that names its port keeps the invariant exactly when it names the port an automatic one would get. */
  lemma NamedPortKeepsProbingExactly(cfg: AgentSettings, hash: Hash, table: Table, service: ServiceSpec,
                                     container: Container)
    requires cfg.Span() > 0 && Probing(cfg, hash, table)
    requires service.publishedPort.Some? && container.publishedPort == service.publishedPort
    ensures Probing(cfg, hash, DeployTable(cfg, hash, table, service, None, Some(container)))
       <==> EnsuredPort(cfg, hash, table, service.(publishedPort := None)) == service.publishedPort
  {
    hide Probe, FirstFree, UsedByOthers;
    var s := service.serviceId;
    var w := Workload(service, Some(container.containerId), service.publishedPort, container.containerIp,
                      WorkloadRunning, 0);
    var after := table[s := w];
    AllocationIsFirstFree(cfg, hash, table, service.(publishedPort := None));
    OwnPortIsNotOthers(table, s, w);
    assert after[s].publishedPort == service.publishedPort;
    assert FirstFreeOf(cfg, hash, after, s, service.publishedPort.value) <==>
           FirstFreeOf(cfg, hash, table, s, service.publishedPort.value);
    if FirstFreeOf(cfg, hash, table, s, service.publishedPort.value) {
      TakingAPortKeepsProbing(cfg, hash, table, s, w);
    }
  }
}
